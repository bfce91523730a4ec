/** The reasoning markers and their removal from emitted text:
    `content.replace(/<think>|<\/think>/g, '')`. The regular expression is
    tried at each position from left to right; a match is dropped and the
    scan resumes after it, an unmatched character is kept and the scan
    moves one character on. The output is never scanned again. */
module Markers {
  import opened Text

  const Open: string := "<think>"
  const Close: string := "</think>"

  /** Some marker begins at the start of `s`. */
  predicate AtMarker(s: string) {
    StartsWith(s, Open) || StartsWith(s, Close)
  }

  /** Some marker occurs anywhere in `s`. */
  predicate HasMarker(s: string) {
    Contains(s, Open) || Contains(s, Close)
  }

  /** One left-to-right pass that drops every marker occurrence. Never
      longer than the input, and characters only ever disappear. */
  function Strip(s: string): (r: string)
    ensures |r| <= |s|
    ensures forall i :: 0 <= i < |r| ==> r[i] in s
    decreases |s|
  {
    if StartsWith(s, Open) then Strip(s[|Open|..])
    else if StartsWith(s, Close) then Strip(s[|Close|..])
    else if s == [] then []
    else [s[0]] + Strip(s[1..])
  }

  /** A text without markers passes through untouched, and a text with a
      marker always loses characters. */
  lemma {:induction false} StripIdentity(s: string)
    ensures Strip(s) == s <==> !HasMarker(s)
    decreases |s|
  {
    if StartsWith(s, Open) || StartsWith(s, Close) {
      assert |Strip(s)| < |s|;
    } else if s == [] {
    } else {
      StripIdentity(s[1..]);
      assert Strip(s) == [s[0]] + Strip(s[1..]);
      if Strip(s) == s {
        assert Strip(s[1..]) == s[1..];
      }
    }
  }

  /** A marker that begins at position `i` of `a + b` ends inside `a`. */
  predicate EndsInside(a: string, b: string, i: nat)
    requires i <= |a|
  {
    (StartsWith(a[i..] + b, Open) ==> |Open| <= |a| - i)
    && (StartsWith(a[i..] + b, Close) ==> |Close| <= |a| - i)
  }

  /** No marker straddles the boundary between `a` and `b`. */
  predicate NoStraddle(a: string, b: string) {
    forall i :: 0 <= i < |a| ==> EndsInside(a, b, i)
  }

  /** Stripping distributes over a concatenation no marker straddles: the
      stripped pieces, concatenated in order, are the stripped whole. */
  lemma {:induction false} StripConcat(a: string, b: string)
    requires NoStraddle(a, b)
    ensures Strip(a + b) == Strip(a) + Strip(b)
    decreases |a|
  {
    if a == [] {
      assert a + b == b;
    } else {
      var s := a + b;
      assert EndsInside(a, b, 0) && a[0..] == a;
      var k: nat, kept: string;
      if StartsWith(s, Open) {
        MarkerInside(a, b, Open);
        k, kept := |Open|, "";
      } else if StartsWith(s, Close) {
        MarkerInside(a, b, Close);
        k, kept := |Close|, "";
      } else {
        PlainHead(a, b);
        k, kept := 1, [a[0]];
      }
      ShiftNoStraddle(a, b, k);
      StripConcat(a[k..], b);
      Reassemble(Strip(a + b), Strip(a), Strip(b), kept, Strip(a[k..] + b), Strip(a[k..]));
    }
  }

  /** The last step of `StripConcat`: both strippings keep the same head
      and continue with the same remainder of `a`. */
  lemma Reassemble(whole: string, left: string, right: string, kept: string, tailWhole: string, tailLeft: string)
    requires whole == kept + tailWhole && left == kept + tailLeft
    requires tailWhole == tailLeft + right
    ensures whole == left + right
  {
    assert kept + (tailLeft + right) == (kept + tailLeft) + right;
  }

  /** A marker at the head of `a + b` that ends inside `a` is dropped from
      both `a + b` and `a`, leaving the same remainder of `a`. */
  lemma MarkerInside(a: string, b: string, m: string)
    requires m == Open || m == Close
    requires StartsWith(a + b, m) && |m| <= |a|
    requires m == Close ==> !StartsWith(a + b, Open)
    ensures Strip(a + b) == "" + Strip(a[|m|..] + b)
    ensures Strip(a) == "" + Strip(a[|m|..])
  {
    var s := a + b;
    assert s[..|m|] == a[..|m|];
    assert s[|m|..] == a[|m|..] + b;
    if m == Close {
      assert !StartsWith(a, Open);
    }
  }

  /** With no marker at the head of `a + b`, the first character of `a`
      is kept in both strippings. */
  lemma PlainHead(a: string, b: string)
    requires a != [] && !AtMarker(a + b)
    ensures Strip(a + b) == [a[0]] + Strip(a[1..] + b)
    ensures Strip(a) == [a[0]] + Strip(a[1..])
  {
    var s := a + b;
    assert !AtMarker(a);
    assert s[1..] == a[1..] + b;
  }

  /** The no-straddle condition survives dropping a prefix. */
  lemma ShiftNoStraddle(a: string, b: string, k: nat)
    requires k <= |a| && NoStraddle(a, b)
    ensures NoStraddle(a[k..], b)
  {
    forall i | 0 <= i < |a[k..]|
      ensures EndsInside(a[k..], b, i)
    {
      assert EndsInside(a, b, i + k);
      assert a[k..][i..] == a[i + k..];
    }
  }

  /** Text that is shorter than a marker or does not begin with '<' is
      not at a marker. */
  lemma NotAtMarker(s: string)
    requires |s| < |Open| || s[0] != '<'
    ensures !AtMarker(s)
  {
    if |s| >= |Open| {
      assert s[..|Open|][0] != Open[0];
    }
    if |s| >= |Close| {
      assert s[..|Close|][0] != Close[0];
    }
  }

  /** One step of the scan over a character that starts no marker. */
  lemma KeepHead(s: string)
    requires s != [] && (|s| < |Open| || s[0] != '<')
    ensures Strip(s) == [s[0]] + Strip(s[1..])
  {
    NotAtMarker(s);
  }

  /** Text without '<' is left as it is. */
  lemma {:induction false} KeepPlain(s: string)
    requires '<' !in s
    ensures Strip(s) == s
    decreases |s|
  {
    if s != [] {
      KeepHead(s);
      assert forall c :: c in s[1..] ==> c in s;
      KeepPlain(s[1..]);
      assert [s[0]] + s[1..] == s;
    }
  }

  /** Text with no '<' in it. */
  predicate PlainText(s: string) {
    '<' !in s
  }

  /** Text without '<' holds no marker and is left as it is. */
  lemma Plain(s: string)
    requires PlainText(s)
    ensures !Contains(s, Open) && !Contains(s, Close) && Strip(s) == s
  {
    KeepPlain(s);
    StripIdentity(s);
  }

  /** One pass and no re-scan: removing the inner marker of
      `<th<think>ink>` leaves a `<think>` behind, which stays. */
  lemma NoRescan(p: string, q: string)
    requires p == "<th" && q == "ink>"
    ensures Strip(p + Open + q) == Open
  {
    HeadUnstraddled(p, Open + q);
    HeadKept(p);
    InnerMarkerDropped(p, q);
    assert p + q == Open;
  }

  /** An opening marker between a kept head and plain text is dropped. */
  lemma InnerMarkerDropped(p: string, q: string)
    requires NoStraddle(p, Open + q) && Strip(p) == p && '<' !in q
    ensures Strip(p + Open + q) == p + q
  {
    var r := Open + q;
    StripConcat(p, r);
    assert p + r == p + Open + q;
    assert StartsWith(r, Open) && r[|Open|..] == q;
    KeepPlain(q);
  }

  lemma HeadUnstraddled(p: string, r: string)
    requires p == "<th" && |r| >= 1 && r[0] == '<'
    ensures NoStraddle(p, r)
  {
    forall i | 0 <= i < |p|
      ensures EndsInside(p, r, i)
    {
      var u := p[i..] + r;
      if i == 0 {
        assert u[3] == '<' && u[1] == 't';
        assert |u| >= |Open| ==> u[..|Open|][3] != Open[3];
        assert |u| >= |Close| ==> u[..|Close|][1] != Close[1];
      } else {
        assert u[0] == p[i] && p[i] != '<';
        NotAtMarker(u);
      }
    }
  }

  lemma HeadKept(p: string)
    requires p == "<th"
    ensures Strip(p) == p
  {
    KeepHead(p);
    assert '<' !in p[1..];
    KeepPlain(p[1..]);
    assert [p[0]] + p[1..] == p;
  }

  /** Stripping works per delta: a marker cut anywhere by a delta
      boundary is kept, and neither piece holds a marker, so neither
      opens or closes a block; the same text in one delta is removed. */
  lemma SplitMarkerKept(m: string, k: nat)
    requires m == Open || m == Close
    requires 0 < k < |m|
    ensures Strip(m[..k]) + Strip(m[k..]) == m
    ensures !HasMarker(m[..k]) && !HasMarker(m[k..])
    ensures Strip(m) == ""
    ensures !NoStraddle(m[..k], m[k..])
  {
    MarkerTailPlain(m, k);
    KeepPlain(m[k..]);
    MarkerHeadKept(m, k);
    Rejoin(m, k, Strip(m[..k]), Strip(m[k..]));
    StripIdentity(m[..k]);
    StripIdentity(m[k..]);
    MarkerDropped(m);
    MarkerStraddles(m, k);
  }

  /** The two pieces of a cut put back together. */
  lemma Rejoin(m: string, k: nat, p: string, q: string)
    requires k <= |m| && p == m[..k] && q == m[k..]
    ensures p + q == m
  {
  }

  /** A cut marker straddles the cut. */
  lemma MarkerStraddles(m: string, k: nat)
    requires m == Open || m == Close
    requires 0 < k < |m|
    ensures !NoStraddle(m[..k], m[k..])
  {
    assert m[..k][0..] + m[k..] == m;
    assert !EndsInside(m[..k], m[k..], 0);
  }

  /** A marker holds '<' only at its first character. */
  lemma MarkerTailPlain(m: string, k: nat)
    requires m == Open || m == Close
    requires 0 < k <= |m|
    ensures '<' !in m[k..]
  {
    forall i | 0 <= i < |m[k..]|
      ensures m[k..][i] != '<'
    {
      assert m[k..][i] == m[i + k];
    }
  }

  /** A proper prefix of a marker is no marker and is kept whole. */
  lemma MarkerHeadKept(m: string, k: nat)
    requires m == Open || m == Close
    requires 0 < k < |m|
    ensures Strip(m[..k]) == m[..k]
  {
    var p := m[..k];
    assert !AtMarker(p);
    MarkerTailPlain(m, 1);
    assert p[1..] == m[1..][..k - 1];
    assert forall c :: c in p[1..] ==> c in m[1..];
    KeepPlain(p[1..]);
    assert [p[0]] + p[1..] == p;
  }

  /** A marker on its own strips to nothing. */
  lemma MarkerDropped(m: string)
    requires m == Open || m == Close
    ensures Strip(m) == ""
  {
    assert m[|m|..] == "";
    if m == Close {
      assert Close[1] != Open[1];
      assert !StartsWith(m, Open);
    }
  }
}
