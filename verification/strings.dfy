/** Character-string predicates shared by the Firehose serializer and the
    diagnostic classifier. C strings and std::string values are both modelled
    as `string` (a sequence of characters). */
module Strings {

  /** `s` begins with `prefix`: what `strncmp(s, prefix, strlen(prefix)) == 0`
      decides for NUL-terminated strings. */
  predicate StartsWith(s: string, prefix: string) {
    |prefix| <= |s| && s[..|prefix|] == prefix
  }

  /** `sub` occurs somewhere in `s`: what a non-null `strstr(s, sub)` decides. */
  predicate Contains(s: string, sub: string)
    decreases |s|
  {
    StartsWith(s, sub) || (s != [] && Contains(s[1..], sub))
  }

  /** `sub` sits in `s` starting at position `i`. */
  predicate OccursAt(s: string, sub: string, i: nat) {
    i + |sub| <= |s| && s[i..i + |sub|] == sub
  }

  /** The scan above finds `sub` exactly when it sits at some position of `s`. */
  lemma {:induction false} ContainsIffOccurs(s: string, sub: string)
    ensures Contains(s, sub) <==> exists i: nat :: OccursAt(s, sub, i)
    decreases |s|
  {
    if Contains(s, sub) {
      if StartsWith(s, sub) {
        assert OccursAt(s, sub, 0);
      } else {
        ContainsIffOccurs(s[1..], sub);
        var i: nat :| OccursAt(s[1..], sub, i);
        assert s[i + 1..i + 1 + |sub|] == s[1..][i..i + |sub|];
        assert OccursAt(s, sub, i + 1);
      }
    }
    if exists i: nat :: OccursAt(s, sub, i) {
      var i: nat :| OccursAt(s, sub, i);
      if i == 0 {
        assert s[..|sub|] == s[0..0 + |sub|];
      } else {
        assert s[1..][i - 1..i - 1 + |sub|] == s[i..i + |sub|];
        assert OccursAt(s[1..], sub, i - 1);
        ContainsIffOccurs(s[1..], sub);
      }
    }
  }

  /** A string starts with whatever it was built from first. */
  lemma StartsWithConcat(prefix: string, rest: string)
    ensures StartsWith(prefix + rest, prefix)
  {
    assert (prefix + rest)[..|prefix|] == prefix;
  }

  /** A string built around `sub` holds it right after the part before it. */
  lemma OccursAtConcat(head: string, sub: string, tail: string)
    ensures OccursAt(head + sub + tail, sub, |head|)
  {
    assert (head + sub + tail)[|head|..|head| + |sub|] == sub;
  }

  /** A string that differs from `prefix` at some position inside `prefix`
      does not start with it. */
  lemma DiffersAt(s: string, prefix: string, k: nat)
    requires k < |prefix| && (k >= |s| || s[k] != prefix[k])
    ensures !StartsWith(s, prefix)
  {
    if |prefix| <= |s| {
      assert s[..|prefix|][k] == s[k];
    }
  }

  /** No two newline characters are adjacent. */
  predicate NoDoubleNewline(s: string) {
    forall i :: 0 <= i < |s| - 1 ==> !(s[i] == '\n' && s[i + 1] == '\n')
  }

  /** Splitting `s` at its newlines gives only non-empty lines: `s` is not
      empty, neither starts nor ends with a newline, and has no two newlines
      in a row. */
  predicate NoBlankLine(s: string) {
    s != [] && s[0] != '\n' && s[|s| - 1] != '\n' && NoDoubleNewline(s)
  }

  lemma NoDoubleNewlineConcat(a: string, b: string)
    requires NoDoubleNewline(a) && NoDoubleNewline(b)
    requires a == [] || b == [] || a[|a| - 1] != '\n' || b[0] != '\n'
    ensures NoDoubleNewline(a + b)
  {
    var ab := a + b;
    forall i | 0 <= i < |ab| - 1
      ensures !(ab[i] == '\n' && ab[i + 1] == '\n')
    {
      if i < |a| - 1 {
        assert ab[i] == a[i] && ab[i + 1] == a[i + 1];
      } else if i >= |a| {
        assert ab[i] == b[i - |a|] && ab[i + 1] == b[i - |a| + 1];
      }
    }
  }

  /** Joining two lines without blank lines by one newline keeps that property. */
  lemma NoBlankLineJoin(a: string, b: string)
    requires NoBlankLine(a) && NoBlankLine(b)
    ensures NoBlankLine(a + "\n" + b)
  {
    NoDoubleNewlineConcat(a, "\n");
    NoDoubleNewlineConcat(a + "\n", b);
  }

  /** A non-empty string with no newline at all has no blank line. */
  lemma NoNewlineNoBlankLine(s: string)
    requires s != [] && '\n' !in s
    ensures NoBlankLine(s)
  {
  }

  /** Two texts around a newline-free fragment: no new pair of adjacent
      newlines can appear at either seam. */
  lemma NoDoubleNewlineAround(a: string, mid: string, b: string)
    requires mid != [] && '\n' !in mid
    ensures NoDoubleNewline(a) && NoDoubleNewline(b) ==> NoDoubleNewline(a + mid + b)
  {
    if NoDoubleNewline(a) && NoDoubleNewline(b) {
      assert NoDoubleNewline(mid);
      NoDoubleNewlineConcat(a, mid);
      assert (a + mid)[|a + mid| - 1] == mid[|mid| - 1];
      NoDoubleNewlineConcat(a + mid, b);
    }
  }

  /** Text wrapped between two newline-free markup fragments has no blank
      line as long as the text itself has no two newlines in a row. */
  lemma NoBlankLineWrapped(open: string, text: string, close: string)
    requires open != [] && '\n' !in open
    requires close != [] && '\n' !in close
    ensures NoDoubleNewline(text) ==> NoBlankLine(open + text + close)
  {
    if NoDoubleNewline(text) {
      assert NoDoubleNewline(open);
      assert NoDoubleNewline(close);
      NoDoubleNewlineConcat(open, text);
      NoDoubleNewlineConcat(open + text, close);
      assert (open + text + close)[0] == open[0];
      assert (open + text + close)[|open + text + close| - 1] == close[|close| - 1];
    }
  }

  /** Two texts set into three newline-free markup fragments, the way an
      element with two attributes is written out. */
  lemma NoBlankLineTwoAttributes(open: string, a: string, mid: string, b: string, close: string)
    requires open != [] && '\n' !in open
    requires mid != [] && '\n' !in mid
    requires close != [] && '\n' !in close
    ensures NoDoubleNewline(a) && NoDoubleNewline(b) ==> NoBlankLine(open + a + mid + b + close)
  {
    NoDoubleNewlineAround(a, mid, b);
    NoBlankLineWrapped(open, a + mid + b, close);
    assert open + (a + mid + b) + close == open + a + mid + b + close;
  }
}
