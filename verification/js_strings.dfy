/** The few JavaScript string behaviours the application relies on:
    `String.prototype.trim`, template-literal interpolation, decimal
    rendering of a step number and `Array.prototype.join`. */
module JsStrings {
  import opened Wrappers

  /** The characters `trim` removes: ECMAScript WhiteSpace (tab, vertical tab,
      form feed, no-break space, byte-order mark and the space separators)
      together with the LineTerminators. */
  predicate IsWhitespace(c: char) {
    || c == '\t' || c == '\n' || c == '\U{B}' || c == '\U{C}' || c == '\r'
    || c == ' ' || c == '\U{A0}' || c == '\U{1680}'
    || ('\U{2000}' <= c <= '\U{200A}')
    || c == '\U{2028}' || c == '\U{2029}' || c == '\U{202F}' || c == '\U{205F}'
    || c == '\U{3000}' || c == '\U{FEFF}'
  }

  /** Every character of `s` is whitespace (the empty string included). */
  predicate IsBlank(s: string) {
    forall k :: 0 <= k < |s| ==> IsWhitespace(s[k])
  }

  /** Drops leading whitespace: the result is the suffix of `s` that starts at
      the first non-whitespace character. */
  function TrimStart(s: string): (r: string)
    ensures |r| <= |s| && r == s[|s| - |r|..]
    ensures forall k :: 0 <= k < |s| - |r| ==> IsWhitespace(s[k])
    ensures r == [] || !IsWhitespace(r[0])
  {
    if |s| == 0 || !IsWhitespace(s[0]) then s else TrimStart(s[1..])
  }

  /** Drops trailing whitespace: the result is the prefix of `s` that ends at
      the last non-whitespace character. */
  function TrimEnd(s: string): (r: string)
    ensures |r| <= |s| && r == s[..|r|]
    ensures forall k :: |r| <= k < |s| ==> IsWhitespace(s[k])
    ensures r == [] || !IsWhitespace(r[|r| - 1])
  {
    if |s| == 0 || !IsWhitespace(s[|s| - 1]) then s else TrimEnd(s[..|s| - 1])
  }

  /** `r` is a contiguous piece of `s` with only blank text before and after
      it. */
  predicate IsPieceBetweenBlanks(r: string, s: string) {
    exists cut ::
      && 0 <= cut <= |s| - |r|
      && r == s[cut..cut + |r|]
      && IsBlank(s[..cut]) && IsBlank(s[cut + |r|..])
  }

  /** `s.trim()`: `s` with a blank prefix and a blank suffix cut off, leaving
      a non-whitespace character at each end of a non-empty result. */
  function Trim(s: string): (r: string)
    ensures IsPieceBetweenBlanks(r, s)
    ensures r == [] || (!IsWhitespace(r[0]) && !IsWhitespace(r[|r| - 1]))
  {
    var t := TrimStart(s);
    var r := TrimEnd(t);
    TrimmedPiece(s, t, r);
    r
  }

  /** A blank-prefixed suffix `t` of `s`, cut back to a prefix `r` followed
      by blank text, is a piece of `s` with blank text on either side. */
  lemma TrimmedPiece(s: string, t: string, r: string)
    requires |t| <= |s| && t == s[|s| - |t|..]
    requires forall k :: 0 <= k < |s| - |t| ==> IsWhitespace(s[k])
    requires t == [] || !IsWhitespace(t[0])
    requires |r| <= |t| && r == t[..|r|]
    requires forall k :: |r| <= k < |t| ==> IsWhitespace(t[k])
    requires r == [] || !IsWhitespace(r[|r| - 1])
    ensures IsPieceBetweenBlanks(r, s)
    ensures r == [] || (!IsWhitespace(r[0]) && !IsWhitespace(r[|r| - 1]))
  {
    var cut := |s| - |t|;
    assert r == s[cut..cut + |r|];
    assert s[cut + |r|..] == t[|r|..];
    assert IsBlank(s[..cut]) && IsBlank(s[cut + |r|..]);
  }

  /** `!s.trim()` holds exactly for the blank strings. */
  lemma TrimEmptyIffBlank(s: string)
    ensures Trim(s) == [] <==> IsBlank(s)
  {
  }

  /** The text a template literal produces for a value that may be undefined. */
  function Interpolate(v: Option<string>): (r: string)
    ensures v.Some? ==> r == v.value
    ensures v.None? ==> r == "undefined"
  {
    match v
    case Some(s) => s
    case None => "undefined"
  }

  predicate IsDigit(c: char) {
    '0' <= c <= '9'
  }

  function DigitChar(d: nat): (c: char)
    requires d < 10
    ensures IsDigit(c) && c as int - '0' as int == d
  {
    (48 + d) as char
  }

  /** The decimal rendering of a number, as `${n}` produces it for a
      non-negative integer. */
  function NatToDecimal(n: nat): (r: string)
    ensures |r| >= 1
    ensures forall k :: 0 <= k < |r| ==> IsDigit(r[k])
    ensures n >= 1 ==> r[0] != '0'
  {
    if n < 10 then [DigitChar(n)] else NatToDecimal(n / 10) + [DigitChar(n % 10)]
  }

  /** Reads a string of decimal digits back as a number. */
  function DecimalValue(s: string): (n: nat)
    requires forall k :: 0 <= k < |s| ==> IsDigit(s[k])
  {
    if |s| == 0 then 0
    else
      assert IsDigit(s[|s| - 1]);
      DecimalValue(s[..|s| - 1]) * 10 + (s[|s| - 1] as int - '0' as int)
  }

  /** Rendering a number and reading it back gives the number. */
  lemma {:induction false} DecimalRoundTrip(n: nat)
    ensures DecimalValue(NatToDecimal(n)) == n
  {
    var r := NatToDecimal(n);
    if n >= 10 {
      DecimalRoundTrip(n / 10);
      assert r[..|r| - 1] == NatToDecimal(n / 10);
    }
  }

  /** Distinct numbers render differently, so step labels never collide. */
  lemma DecimalInjective(m: nat, n: nat)
    requires m != n
    ensures NatToDecimal(m) != NatToDecimal(n)
  {
    DecimalRoundTrip(m);
    DecimalRoundTrip(n);
  }

  predicate StartsWith(s: string, prefix: string) {
    |prefix| <= |s| && s[..|prefix|] == prefix
  }

  predicate EndsWith(s: string, suffix: string) {
    |suffix| <= |s| && s[|s| - |suffix|..] == suffix
  }

  /** A prefix stays a prefix when text is appended. */
  lemma StartsWithAppend(s: string, prefix: string, more: string)
    requires StartsWith(s, prefix)
    ensures StartsWith(s + more, prefix)
  {
    assert (s + more)[..|prefix|] == s[..|prefix|];
  }

  /** `a + b` ends with `b`, and `w + a + b` ends with `a + b`. */
  lemma EndsWithConcat(w: string, a: string, b: string)
    ensures EndsWith(w + a + b, a + b)
  {
    assert w + a + b == w + (a + b);
  }

  /** Where part `k` starts in `parts.join(sep)`: the lengths of the parts
      before it, each followed by one separator. */
  function JoinOffset(parts: seq<string>, sep: string, k: nat): (at: nat)
    requires k <= |parts|
  {
    if k == 0 then 0 else |parts[0]| + |sep| + JoinOffset(parts[1..], sep, k - 1)
  }

  /** `parts.join(sep)`: empty for no parts; otherwise exactly as long as the
      parts with one separator between each neighbouring pair. */
  function Join(parts: seq<string>, sep: string): (r: string)
    ensures |parts| == 0 ==> r == []
    ensures |parts| > 0 ==> |r| == JoinOffset(parts, sep, |parts| - 1) + |parts[|parts| - 1]|
  {
    if |parts| == 0 then ""
    else if |parts| == 1 then parts[0]
    else parts[0] + sep + Join(parts[1..], sep)
  }

  /** Part `k` sits at its offset in the joined text, and unless it is the
      last part the separator follows it immediately. */
  lemma {:induction false} JoinPlaces(parts: seq<string>, sep: string, k: nat)
    requires k < |parts|
    ensures OccursAt(Join(parts, sep), parts[k], JoinOffset(parts, sep, k))
    ensures k + 1 < |parts| ==> OccursAt(Join(parts, sep), sep, JoinOffset(parts, sep, k) + |parts[k]|)
  {
    var joined := Join(parts, sep);
    if |parts| >= 2 {
      var rest := Join(parts[1..], sep);
      assert joined == parts[0] + sep + rest;
      if k == 0 {
        assert parts[0][0..|parts[0]|] == parts[0];
        OccursBefore(parts[0], parts[0], 0, sep);
        OccursBefore(parts[0] + sep, parts[0], 0, rest);
        OccursBetween(parts[0], sep, rest);
      } else {
        JoinPlaces(parts[1..], sep, k - 1);
        var at := JoinOffset(parts[1..], sep, k - 1);
        assert parts[1..][k - 1] == parts[k];
        OccursAfter(parts[0] + sep, rest, parts[k], at);
        if k + 1 < |parts| {
          OccursAfter(parts[0] + sep, rest, sep, at + |parts[k]|);
        }
      }
    }
  }

  /** A piece written between two texts occurs right after the first. */
  lemma OccursBetween(front: string, piece: string, back: string)
    ensures OccursAt(front + piece + back, piece, |front|)
  {
    assert (front + piece + back)[|front|..|front| + |piece|] == piece;
  }

  /** An occurrence stays where it is when text is appended. */
  lemma OccursBefore(text: string, piece: string, at: nat, more: string)
    requires OccursAt(text, piece, at)
    ensures OccursAt(text + more, piece, at)
  {
    assert (text + more)[at..at + |piece|] == text[at..at + |piece|];
  }

  /** An occurrence moves right by the length of any text put in front. */
  lemma OccursAfter(front: string, text: string, piece: string, at: nat)
    requires OccursAt(text, piece, at)
    ensures OccursAt(front + text, piece, |front| + at)
  {
    assert (front + text)[|front| + at..|front| + at + |piece|] == text[at..at + |piece|];
  }

  /** `piece` occurs in `text` at position `at`. */
  predicate OccursAt(text: string, piece: string, at: nat) {
    at + |piece| <= |text| && text[at..at + |piece|] == piece
  }

  /** The pieces occur in `text` one after another, without overlapping, in
      the order given (anything may stand between them). */
  ghost predicate InOrder(text: string, pieces: seq<string>)
    decreases |pieces|
  {
    || |pieces| == 0
    || exists at: nat :: OccursAt(text, pieces[0], at)
         && InOrder(text[at + |pieces[0]|..], pieces[1..])
  }

  /** Text in front of ordered pieces keeps them in order. */
  lemma InOrderAfterGap(gap: string, text: string, pieces: seq<string>)
    requires InOrder(text, pieces)
    ensures InOrder(gap + text, pieces)
  {
    if |pieces| > 0 {
      var at: nat :| OccursAt(text, pieces[0], at)
        && InOrder(text[at + |pieces[0]|..], pieces[1..]);
      var whole := gap + text;
      assert whole[|gap| + at..|gap| + at + |pieces[0]|] == text[at..at + |pieces[0]|];
      assert whole[|gap| + at + |pieces[0]|..] == text[at + |pieces[0]|..];
      assert OccursAt(whole, pieces[0], |gap| + at);
    }
  }

  /** A gap, then a piece, then text holding further pieces in order. */
  lemma InOrderCons(gap: string, piece: string, rest: string, pieces: seq<string>)
    requires InOrder(rest, pieces)
    ensures InOrder(gap + piece + rest, [piece] + pieces)
  {
    var whole := gap + piece + rest;
    var all := [piece] + pieces;
    assert whole[|gap|..|gap| + |piece|] == piece;
    assert whole[|gap| + |piece|..] == rest;
    assert all[0] == piece && all[1..] == pieces;
    assert OccursAt(whole, all[0], |gap|) && InOrder(whole[|gap| + |all[0]|..], all[1..]);
  }

  /** Ordered pieces of two texts stay ordered in the texts' concatenation. */
  lemma {:induction false} InOrderAppend(a: string, b: string, ps: seq<string>, qs: seq<string>)
    requires InOrder(a, ps) && InOrder(b, qs)
    ensures InOrder(a + b, ps + qs)
    decreases |ps|
  {
    if |ps| == 0 {
      InOrderAfterGap(a, b, qs);
      assert ps + qs == qs;
    } else {
      var at: nat :| OccursAt(a, ps[0], at) && InOrder(a[at + |ps[0]|..], ps[1..]);
      var rest := a[at + |ps[0]|..];
      InOrderAppend(rest, b, ps[1..], qs);
      var whole := a + b;
      var all := ps + qs;
      assert whole[at..at + |ps[0]|] == a[at..at + |ps[0]|];
      assert whole[at + |ps[0]|..] == rest + b;
      assert all[0] == ps[0] && all[1..] == ps[1..] + qs;
      assert OccursAt(whole, all[0], at) && InOrder(whole[at + |all[0]|..], all[1..]);
    }
  }

  /** A joined list holds its elements in order. */
  lemma JoinInOrder(parts: seq<string>, sep: string)
    ensures InOrder(Join(parts, sep), parts)
  {
    JoinThenInOrder(parts, sep, "", []);
    assert Join(parts, sep) + "" == Join(parts, sep);
    assert parts + [] == parts;
  }

  /** A joined list, followed by text holding further pieces, keeps the list's
      elements in order ahead of those pieces. */
  lemma {:induction false} JoinThenInOrder(parts: seq<string>, sep: string, rest: string, pieces: seq<string>)
    requires InOrder(rest, pieces)
    ensures InOrder(Join(parts, sep) + rest, parts + pieces)
    decreases |parts|
  {
    if |parts| == 0 {
      assert Join(parts, sep) + rest == rest;
      assert parts + pieces == pieces;
    } else if |parts| == 1 {
      InOrderCons("", parts[0], rest, pieces);
      assert "" + parts[0] + rest == Join(parts, sep) + rest;
      assert [parts[0]] + pieces == parts + pieces;
    } else {
      JoinThenInOrder(parts[1..], sep, rest, pieces);
      JoinStep(parts, sep, rest, pieces);
    }
  }

  lemma JoinStep(parts: seq<string>, sep: string, rest: string, pieces: seq<string>)
    requires |parts| >= 2
    requires InOrder(Join(parts[1..], sep) + rest, parts[1..] + pieces)
    ensures InOrder(Join(parts, sep) + rest, parts + pieces)
  {
    var head, tailParts := parts[0], parts[1..];
    var tail := Join(tailParts, sep) + rest;
    var later := tailParts + pieces;
    assert Join(parts, sep) == head + sep + Join(tailParts, sep);
    InOrderAfterGap(sep, tail, later);
    InOrderLead(head, sep + tail, later);
    Regroup(head, sep, Join(tailParts, sep), rest);
    assert parts + pieces == [head] + later;
  }

  lemma Regroup(a: string, b: string, c: string, d: string)
    ensures a + b + c + d == a + (b + (c + d))
  {
  }

  /** A piece in front of text holding further pieces in order. */
  lemma InOrderLead(piece: string, rest: string, pieces: seq<string>)
    requires InOrder(rest, pieces)
    ensures InOrder(piece + rest, [piece] + pieces)
  {
    var whole := piece + rest;
    var all := [piece] + pieces;
    assert whole[..|piece|] == piece;
    assert whole[|piece|..] == rest;
    assert all[0] == piece && all[1..] == pieces;
    assert OccursAt(whole, all[0], 0) && InOrder(whole[|all[0]|..], all[1..]);
  }

}
