/** The two helpers every Firehose serializer is built from, from
    lib/Support/Firehose.cpp: `XML::mkString`, which joins the non-empty
    pieces of an element with a separator, and `numberToString`, which
    renders an unsigned number in decimal. */
module Xml {
  import opened Strings

  // ---------------------------------------------------------------------
  // mkString
  // ---------------------------------------------------------------------

  /** The strings of `ss` that are not empty, in their original order. */
  function NonEmpty(ss: seq<string>): seq<string> {
    if ss == [] then []
    else (if ss[0] == "" then [] else [ss[0]]) + NonEmpty(ss[1..])
  }

  /** Filtering keeps exactly the non-empty strings. */
  lemma {:induction false} NonEmptyMembers(ss: seq<string>)
    ensures forall s :: s in NonEmpty(ss) <==> s in ss && s != ""
  {
    if ss != [] {
      NonEmptyMembers(ss[1..]);
      assert ss == [ss[0]] + ss[1..];
    }
  }

  /** Filtering distributes over concatenation, so it keeps the relative
      order of whatever it keeps. */
  lemma {:induction false} NonEmptyConcat(a: seq<string>, b: seq<string>)
    ensures NonEmpty(a + b) == NonEmpty(a) + NonEmpty(b)
  {
    if a == [] {
      assert a + b == b;
    } else {
      assert (a + b)[0] == a[0];
      assert (a + b)[1..] == a[1..] + b;
      NonEmptyConcat(a[1..], b);
    }
  }

  /** The elements of `ss` with `sep` between each two consecutive ones. */
  function Join(ss: seq<string>, sep: string): string {
    if ss == [] then ""
    else if |ss| == 1 then ss[0]
    else ss[0] + sep + Join(ss[1..], sep)
  }

  /** Each element of `ss` followed by `sep`. */
  function Terminated(ss: seq<string>, sep: string): string {
    if ss == [] then "" else ss[0] + sep + Terminated(ss[1..], sep)
  }

  lemma {:induction false} TerminatedConcat(a: seq<string>, b: seq<string>, sep: string)
    ensures Terminated(a + b, sep) == Terminated(a, sep) + Terminated(b, sep)
  {
    if a == [] {
      assert a + b == b;
    } else {
      assert (a + b)[0] == a[0];
      assert (a + b)[1..] == a[1..] + b;
      TerminatedConcat(a[1..], b, sep);
    }
  }

  /** Joining is terminating every element but the last, then appending the
      last one: the two loops of `XML::mkString`. */
  lemma {:induction false} JoinAsTerminated(ss: seq<string>, sep: string)
    requires ss != []
    ensures Join(ss, sep) == Terminated(ss[..|ss| - 1], sep) + ss[|ss| - 1]
  {
    if |ss| > 1 {
      JoinAsTerminated(ss[1..], sep);
      assert ss[1..][..|ss[1..]| - 1] == ss[..|ss| - 1][1..];
    }
  }

  /** What `XML::mkString(ss, sep)` returns once its loop bound is corrected
      (see JoinBoundAsWritten): the non-empty strings of `ss`, in their
      order, with `sep` between each two of them and none before the first
      or after the last. */
  function MkString(ss: seq<string>, sep: string := "\n"): (r: string)
    ensures r == "" <==> forall s :: s in ss ==> s == ""
  {
    var filtered := NonEmpty(ss);
    NonEmptyMembers(ss);
    if filtered != [] then
      assert filtered[0] in ss;
      Join(filtered, sep)
    else
      Join(filtered, sep)
  }

  /** `XML::mkString`: its first loop collects the non-empty strings, its
      second streams them out with the separator between them. */
  method MkStringLoop(ss: seq<string>, sep: string) returns (r: string)
    ensures r == MkString(ss, sep)
  {
    var filtered := FilterNonEmpty(ss);
    r := JoinFiltered(filtered, sep);
  }

  /** The first loop of `XML::mkString`: `push_back` of every non-empty
      string, in order. */
  method FilterNonEmpty(ss: seq<string>) returns (filtered: seq<string>)
    ensures filtered == NonEmpty(ss)
  {
    filtered := [];
    var k := 0;
    while k < |ss|
      invariant 0 <= k <= |ss|
      invariant filtered == NonEmpty(ss[..k])
    {
      NonEmptySnoc(ss[..k], ss[k]);
      assert ss[..k + 1] == ss[..k] + [ss[k]];
      if ss[k] != "" {
        filtered := filtered + [ss[k]];
      }
      k := k + 1;
    }
    assert ss[..|ss|] == ss;
  }

  /** The second loop of `XML::mkString` with its bound corrected (see
      JoinBoundAsWritten): every string but the last followed by the
      separator, then the last one on its own. */
  method JoinFiltered(filtered: seq<string>, sep: string) returns (r: string)
    ensures r == Join(filtered, sep)
  {
    r := "";
    var i := 0;
    while i + 1 < |filtered|
      invariant i == 0 || i < |filtered|
      invariant r == Terminated(filtered[..i], sep)
    {
      TerminatedSnoc(filtered[..i], filtered[i], sep);
      assert filtered[..i + 1] == filtered[..i] + [filtered[i]];
      r := r + filtered[i] + sep;
      i := i + 1;
    }
    if |filtered| > 0 {
      JoinAsTerminated(filtered, sep);
      r := r + filtered[|filtered| - 1];
    }
  }

  lemma NonEmptySnoc(xs: seq<string>, x: string)
    ensures NonEmpty(xs + [x]) == NonEmpty(xs) + (if x == "" then [] else [x])
  {
    NonEmptyConcat(xs, [x]);
    assert [x][1..] == [];
  }

  lemma TerminatedSnoc(xs: seq<string>, x: string, sep: string)
    ensures Terminated(xs + [x], sep) == Terminated(xs, sep) + x + sep
  {
    TerminatedConcat(xs, [x], sep);
    assert [x][1..] == [];
    assert Terminated([x], sep) == x + sep + "";
    assert x + sep + "" == x + sep;
  }

  /** The markup of each element of `xs`, in order: the vector a composite
      `toXML` fills by calling `toXML()` on each of its children. */
  function MapMarkup<T>(xs: seq<T>, markup: T -> string): (r: seq<string>)
    ensures |r| == |xs|
  {
    if xs == [] then [] else [markup(xs[0])] + MapMarkup(xs[1..], markup)
  }

  lemma {:induction false} MapMarkupAt<T>(xs: seq<T>, markup: T -> string, k: nat)
    requires k < |xs|
    ensures MapMarkup(xs, markup)[k] == markup(xs[k])
  {
    if k > 0 {
      MapMarkupAt(xs[1..], markup, k - 1);
    }
  }

  lemma MapMarkupSnoc<T>(xs: seq<T>, x: T, markup: T -> string)
    ensures MapMarkup(xs + [x], markup) == MapMarkup(xs, markup) + [markup(x)]
  {
    MapMarkupConcat(xs, [x], markup);
    assert MapMarkup([x], markup) == [markup(x)] by {
      assert [x][1..] == [];
    }
  }

  /** The `push_back` loop of a composite `toXML`: the markup of every child,
      in the order of the children. */
  method MapMarkupLoop<T>(xs: seq<T>, markup: T -> string) returns (parts: seq<string>)
    ensures parts == MapMarkup(xs, markup)
  {
    parts := [];
    var i := 0;
    while i < |xs|
      invariant 0 <= i <= |xs|
      invariant parts == MapMarkup(xs[..i], markup)
    {
      MapMarkupSnoc(xs[..i], xs[i], markup);
      assert xs[..i + 1] == xs[..i] + [xs[i]];
      parts := parts + [markup(xs[i])];
      i := i + 1;
    }
    assert xs[..|xs|] == xs;
  }

  /** Mapping keeps the order of the elements. */
  lemma {:induction false} MapMarkupConcat<T>(xs: seq<T>, ys: seq<T>, markup: T -> string)
    ensures MapMarkup(xs + ys, markup) == MapMarkup(xs, markup) + MapMarkup(ys, markup)
  {
    if xs == [] {
      assert xs + ys == ys;
    } else {
      assert (xs + ys)[1..] == xs[1..] + ys;
      MapMarkupConcat(xs[1..], ys, markup);
    }
  }

  /** The markup of an element's children as the unit tests spell it out:
      every child that renders to something is followed by a newline, and
      children that render to nothing leave no trace. */
  function Lines(children: seq<string>): string {
    Terminated(NonEmpty(children), "\n")
  }

  lemma LinesConcat(a: seq<string>, b: seq<string>)
    ensures Lines(a + b) == Lines(a) + Lines(b)
  {
    NonEmptyConcat(a, b);
    TerminatedConcat(NonEmpty(a), NonEmpty(b), "\n");
  }

  /** One child's share of an element: its markup on a line of its own, or
      nothing at all when the child renders to nothing. */
  function Line(x: string): string {
    if x == "" then "" else x + "\n"
  }

  lemma LinesOfOne(x: string)
    ensures Lines([x]) == Line(x)
  {
    assert [x][1..] == [];
    assert NonEmpty([x]) == if x == "" then [] else [x];
    if x != "" {
      assert Terminated([x], "\n") == x + "\n" + "";
    }
  }

  lemma LinesOfTwo(a: string, b: string)
    ensures Lines([a, b]) == Line(a) + Line(b)
  {
    LinesConcat([a], [b]);
    assert [a] + [b] == [a, b];
    LinesOfOne(a);
    LinesOfOne(b);
  }

  lemma LinesOfThree(a: string, b: string, c: string)
    ensures Lines([a, b, c]) == Line(a) + Line(b) + Line(c)
  {
    LinesConcat([a, b], [c]);
    assert [a, b] + [c] == [a, b, c];
    LinesOfTwo(a, b);
    LinesOfOne(c);
  }

  lemma LinesOfFour(a: string, b: string, c: string, d: string)
    ensures Lines([a, b, c, d]) == Line(a) + Line(b) + Line(c) + Line(d)
  {
    LinesConcat([a, b, c], [d]);
    assert [a, b, c] + [d] == [a, b, c, d];
    LinesOfThree(a, b, c);
    LinesOfOne(d);
  }

  /** When every child renders to something, each one is followed by a
      newline: the loops the unit tests write for traces and results. */
  lemma {:induction false} LinesAllPresent(children: seq<string>)
    requires forall x :: x in children ==> x != ""
    ensures Lines(children) == Terminated(children, "\n")
  {
    if children != [] {
      assert children == [children[0]] + children[1..];
      assert children[0] in children;
      assert forall x :: x in children[1..] ==> x in children;
      LinesAllPresent(children[1..]);
      LinesConcat([children[0]], children[1..]);
      LinesOfOne(children[0]);
    }
  }

  /** A composite element: its opening tag, then each present child on a
      line of its own in the given order, then its closing tag. This is the
      shape every composite `toXML` of Firehose.cpp produces through
      `mkString`. */
  lemma MkStringFramed(open: string, children: seq<string>, close: string)
    requires open != "" && close != ""
    ensures MkString([open] + children + [close]) == open + "\n" + Lines(children) + close
  {
    NonEmptyFramed(open, children, close);
    JoinFramed(open, NonEmpty(children), close, "\n");
  }

  /** Filtering keeps a non-empty first and last piece in place. */
  lemma NonEmptyFramed(open: string, children: seq<string>, close: string)
    requires open != "" && close != ""
    ensures NonEmpty([open] + children + [close]) == [open] + NonEmpty(children) + [close]
  {
    NonEmptyConcat([open], children);
    NonEmptyConcat([open] + children, [close]);
    assert NonEmpty([open]) == [open] by {
      assert [open][1..] == [];
    }
    assert NonEmpty([close]) == [close] by {
      assert [close][1..] == [];
    }
  }

  lemma JoinFramed(open: string, ys: seq<string>, close: string, sep: string)
    ensures Join([open] + ys + [close], sep) == open + sep + Terminated(ys, sep) + close
  {
    var all := [open] + ys + [close];
    assert all[0] == open;
    assert all[1..] == ys + [close];
    assert Join(all, sep) == open + sep + Join(ys + [close], sep);
    JoinAsTerminated(ys + [close], sep);
    assert (ys + [close])[..|ys|] == ys;
  }

  lemma {:induction false} JoinNoBlankLine(xs: seq<string>)
    requires xs != []
    requires forall x :: x in xs ==> NoBlankLine(x)
    ensures NoBlankLine(Join(xs, "\n"))
  {
    if |xs| > 1 {
      assert xs[0] in xs;
      JoinNoBlankLine(xs[1..]);
      NoBlankLineJoin(xs[0], Join(xs[1..], "\n"));
    }
  }

  /** Omitted (empty) pieces never leave a blank line behind: when every
      piece is either empty or free of blank lines, so is the joined text. */
  lemma MkStringNoBlankLine(ss: seq<string>)
    requires forall s :: s in ss ==> s == "" || NoBlankLine(s)
    requires exists s :: s in ss && s != ""
    ensures NoBlankLine(MkString(ss))
  {
    var filtered := NonEmpty(ss);
    NonEmptyMembers(ss);
    var s :| s in ss && s != "";
    assert s in filtered;
    JoinNoBlankLine(filtered);
  }

  /** Markup that sits on one line of its own: an opening or closing tag. */
  type Tag = t: string | t != [] && '\n' !in t witness "<>"

  /** One composite element as every composite `toXML` of Firehose.cpp
      builds it: `mkString` of the opening tag, the children's markup and
      the closing tag. */
  function Element(open: Tag, children: seq<string>, close: Tag): (r: string)
    ensures r == open + "\n" + Lines(children) + close
  {
    MkStringFramed(open, children, close);
    MkString([open] + children + [close])
  }

  /** Children that are empty or free of blank lines give an element free
      of blank lines. */
  lemma ElementNoBlankLine(open: Tag, children: seq<string>, close: Tag)
    requires forall s :: s in children ==> s == "" || NoBlankLine(s)
    ensures NoBlankLine(Element(open, children, close))
  {
    var ss := [open] + children + [close];
    NoNewlineNoBlankLine(open);
    NoNewlineNoBlankLine(close);
    assert forall s :: s in ss ==> s == open || s in children || s == close;
    assert ss[0] in ss;
    MkStringNoBlankLine(ss);
  }

  // ---------------------------------------------------------------------
  // The loop bound of mkString as written
  // ---------------------------------------------------------------------

  /** The largest value of `std::size_t` on the 64-bit hosts the tool runs on. */
  const SizeMax: nat := 0xFFFF_FFFF_FFFF_FFFF

  /** The bound `filtered.size() - 1` of the second loop of `XML::mkString`
      as written: an unsigned subtraction, which wraps modulo 2^64. */
  function JoinBoundAsWritten(filteredSize: nat): (bound: nat)
    requires filteredSize <= SizeMax
    ensures bound <= SizeMax
    ensures filteredSize > 0 ==> bound == filteredSize - 1
    ensures filteredSize == 0 ==> bound == SizeMax
  {
    (filteredSize + SizeMax) % (SizeMax + 1)
  }

  /** With only empty pieces (`mkString` of `{""}`), nothing is kept, yet the
      bound wraps to SizeMax, so the loop's first iteration reads
      `filtered[0]` of an empty vector. */
  lemma EmptyPiecesOverrunFiltered()
    ensures NonEmpty([""]) == []
    ensures 0 < JoinBoundAsWritten(|NonEmpty([""])|)
    ensures MkString([""]) == ""
  {
  }

  // ---------------------------------------------------------------------
  // numberToString
  // ---------------------------------------------------------------------

  predicate IsDigit(c: char) {
    48 <= c as int <= 57
  }

  function DigitChar(d: nat): (c: char)
    requires d < 10
  {
    (48 + d) as char
  }

  /** `numberToString(n)`: `n` streamed through a `std::ostringstream`,
      i.e. its decimal digits, most significant first, without leading
      zeros. */
  function NumberToString(n: nat): (s: string)
    ensures s != []
    ensures forall c :: c in s ==> IsDigit(c)
    ensures |s| == 1 <==> n < 10
    ensures s[0] == '0' <==> n == 0
    decreases n
  {
    if n < 10 then [DigitChar(n)]
    else NumberToString(n / 10) + [DigitChar(n % 10)]
  }

  /** The number a string of decimal digits denotes. */
  function DecimalValue(s: string): nat
    requires forall c :: c in s ==> IsDigit(c)
  {
    if s == [] then 0
    else
      assert s[|s| - 1] in s;
      assert IsDigit(s[|s| - 1]);
      assert forall c :: c in s[..|s| - 1] ==> c in s;
      10 * DecimalValue(s[..|s| - 1]) + (s[|s| - 1] as int - 48)
  }

  /** Reading back the rendered digits gives the number again. */
  lemma {:induction false} NumberToStringRoundTrip(n: nat)
    ensures DecimalValue(NumberToString(n)) == n
    decreases n
  {
    var s := NumberToString(n);
    if n >= 10 {
      NumberToStringRoundTrip(n / 10);
      assert s[..|s| - 1] == NumberToString(n / 10);
    }
  }

  /** Distinct numbers render differently. */
  lemma NumberToStringInjective(m: nat, n: nat)
    requires NumberToString(m) == NumberToString(n)
    ensures m == n
  {
    NumberToStringRoundTrip(m);
    NumberToStringRoundTrip(n);
  }
}
