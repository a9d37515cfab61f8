/** Untrusted text between fixed tags: the markers inside it are broken up, so
    that each marker occurs in the output exactly where the printer put it. */
module BoundaryMarkers {
  import opened Ids

  const ZERO_WIDTH_SPACE: char := '\U{200B}'

  const OPEN_TAG := "<untrusted-local-db-context>"
  const END_TAG := "</untrusted-local-db-context>"
  const TOKEN_LABEL := "boundary-token: "

  predicate Lacks(s: string, c: char) {
    forall i :: 0 <= i < |s| ==> s[i] != c
  }

  /** A sentence behind the opening tag: any text that holds neither the first
      character of a tag nor the last visible one of the label. */
  type Notice = s: string | Lacks(s, '<') && Lacks(s, ':')

  predicate Occurs(s: string, m: string, i: int) {
    0 <= i && i + |m| <= |s| && s[i..i + |m|] == m
  }

  ghost predicate Has(s: string, m: string) {
    exists i :: Occurs(s, m, i)
  }

  function BreakMarker(marker: string): string {
    if |marker| < 2 then [ZERO_WIDTH_SPACE] + marker
    else marker[..1] + [ZERO_WIDTH_SPACE] + marker[1..]
  }

  /** `strings.ReplaceAll(s, marker, breakMarker(marker))`: leftmost, without overlap. */
  function ReplaceAll(s: string, marker: string): string
    requires |marker| > 0
  {
    if |s| < |marker| then s
    else if marker <= s then BreakMarker(marker) + ReplaceAll(s[|marker|..], marker)
    else [s[0]] + ReplaceAll(s[1..], marker)
  }

  function Sanitize(s: string): string {
    ReplaceAll(ReplaceAll(ReplaceAll(s, OPEN_TAG), END_TAG), TOKEN_LABEL)
  }

  /** The text without zero-width spaces. */
  function Visible(s: string): string {
    if |s| == 0 then [] else (if s[0] == ZERO_WIDTH_SPACE then [] else [s[0]]) + Visible(s[1..])
  }

  /** A marker whose first character is found nowhere else in it. */
  predicate Distinctive(m: string) {
    |m| >= 2 && (forall i :: 1 <= i < |m| ==> m[i] != m[0]) && Lacks(m, ZERO_WIDTH_SPACE)
  }

  /** Replacing never produces, at the front, a piece of text that was not there. */
  lemma {:induction false} PrefixWasThere(t: string, marker: string, p: string)
    requires |marker| >= 2 && ZERO_WIDTH_SPACE !in p
    requires p <= ReplaceAll(t, marker)
    ensures p <= t
    decreases |p|
  {
    if |p| > 0 && |t| >= |marker| {
      var r := ReplaceAll(t, marker);
      if marker <= t {
        assert r[0] == marker[0] && r[1] == ZERO_WIDTH_SPACE;
        assert forall k :: 0 <= k < |p| ==> p[k] == r[k];
      } else {
        assert r[1..] == ReplaceAll(t[1..], marker);
        assert p[1..] <= r[1..] by {
          forall k | 0 <= k < |p| - 1 ensures p[1..][k] == r[1..][k] { assert p[k + 1] == r[k + 1]; }
        }
        PrefixWasThere(t[1..], marker, p[1..]);
      }
    }
  }

  lemma {:induction false} TailWasThere(u: string, t: string, marker: string, k: string)
    requires |marker| >= 2 && ZERO_WIDTH_SPACE !in k
    requires k <= u + ReplaceAll(t, marker)
    ensures k <= u + t
  {
    if |k| > |u| {
      var r := ReplaceAll(t, marker);
      assert k[|u|..] <= r by {
        forall j | 0 <= j < |k| - |u| ensures k[|u|..][j] == r[j] {
          assert k[|u| + j] == (u + r)[|u| + j];
        }
      }
      PrefixWasThere(t, marker, k[|u|..]);
      assert k == k[..|u|] + k[|u|..];
    }
  }

  lemma OccursIsPrefix(s: string, m: string, i: int)
    requires 0 <= i <= |s|
    ensures Occurs(s, m, i) <==> m <= s[i..]
  {
    if m <= s[i..] { assert s[i..i + |m|] == s[i..][..|m|]; }
    if Occurs(s, m, i) { assert s[i..][..|m|] == s[i..i + |m|]; }
  }

  lemma OccursLater(s: string, m: string, i: int, d: nat)
    requires d <= i && d <= |s|
    ensures Occurs(s, m, i) <==> Occurs(s[d..], m, i - d)
  {
    if i + |m| <= |s| { assert s[d..][i - d..i - d + |m|] == s[i..i + |m|]; }
  }

  lemma InsideBreak(m: string, x: string, i: nat)
    requires 2 <= i <= |m|
    ensures (BreakMarker(m) + x)[i..] == m[i - 1..] + x
  {
  }

  lemma InsideMarker(m: string, s: string, i: nat)
    requires m <= s && i <= |m|
    ensures s[i..] == m[i..] + s[|m|..]
  {
  }

  /** An occurrence that starts inside the broken marker starts inside the marker. */
  lemma {:induction false} CreatedInMarker(s: string, marker: string, k: string, i: int)
    requires |marker| >= 2 && ZERO_WIDTH_SPACE !in k && |k| > 0
    requires marker <= s && 0 < i <= |marker|
    requires Occurs(BreakMarker(marker) + ReplaceAll(s[|marker|..], marker), k, i)
    ensures Has(s, k)
  {
    var r := BreakMarker(marker) + ReplaceAll(s[|marker|..], marker);
    OccursIsPrefix(r, k, i);
    assert i >= 2 by { assert r[1] == ZERO_WIDTH_SPACE && r[i] == k[0]; }
    InsideBreak(marker, ReplaceAll(s[|marker|..], marker), i);
    TailWasThere(marker[i - 1..], s[|marker|..], marker, k);
    InsideMarker(marker, s, i - 1);
    OccursIsPrefix(s, k, i - 1);
  }

  lemma {:induction false} CreatedBehindMarker(s: string, marker: string, k: string, i: int)
    requires |marker| >= 2 && ZERO_WIDTH_SPACE !in k && |k| > 0
    requires marker <= s && i > 0 && Occurs(ReplaceAll(s, marker), k, i)
    ensures Has(s, k)
    decreases |s|, 0
  {
    var r, rest := ReplaceAll(s, marker), s[|marker|..];
    assert r == BreakMarker(marker) + ReplaceAll(rest, marker);
    if i <= |marker| {
      CreatedInMarker(s, marker, k, i);
    } else {
      var d := |marker| + 1;
      OccursLater(r, k, i, d);
      assert r[d..] == ReplaceAll(rest, marker);
      NothingIsCreated(rest, marker, k, i - d);
      var j :| Occurs(rest, k, j);
      OccursLater(s, k, j + |marker|, |marker|);
    }
  }

  /** A replacing pass creates no occurrence of any text free of zero-width
      spaces: where one occurs afterwards, one occurred before. */
  lemma {:induction false} NothingIsCreated(s: string, marker: string, k: string, i: int)
    requires |marker| >= 2 && ZERO_WIDTH_SPACE !in k && |k| > 0
    requires Occurs(ReplaceAll(s, marker), k, i)
    ensures Has(s, k)
    decreases |s|
  {
    var r := ReplaceAll(s, marker);
    OccursIsPrefix(r, k, i);
    if |s| >= |marker| {
      if i == 0 {
        assert r[0..] == r;
        PrefixWasThere(s, marker, k);
        OccursIsPrefix(s, k, 0);
        assert s[0..] == s && Occurs(s, k, 0);
      } else if marker <= s {
        CreatedBehindMarker(s, marker, k, i);
      } else {
        OccursLater(r, k, i, 1);
        assert r[1..] == ReplaceAll(s[1..], marker);
        NothingIsCreated(s[1..], marker, k, i - 1);
        var j :| Occurs(s[1..], k, j);
        OccursLater(s, k, j + 1, 1);
      }
    }
  }

  /** No occurrence starts inside the broken marker. */
  lemma BrokenMarkerDiffers(m: string, r': string, i: nat)
    requires Distinctive(m) && i <= |m|
    ensures !Occurs(BreakMarker(m) + r', m, i)
  {
    var r := BreakMarker(m) + r';
    assert r[1] == ZERO_WIDTH_SPACE;
    assert i >= 2 ==> r[i] == m[i - 1];
    if i + |m| <= |r| {
      assert r[i..i + |m|][0] == r[i] && r[i..i + |m|][1] == r[i + 1];
    }
  }

  lemma {:induction false} GoneBehindMarker(s: string, m: string, i: nat)
    requires Distinctive(m) && m <= s
    ensures !Occurs(ReplaceAll(s, m), m, i)
    decreases |s|, 0
  {
    var rest := s[|m|..];
    var r, r' := ReplaceAll(s, m), ReplaceAll(rest, m);
    assert r == BreakMarker(m) + r';
    if i <= |m| {
      BrokenMarkerDiffers(m, r', i);
    } else {
      MarkerIsGone(rest, m);
      assert r[|m| + 1..] == r';
      if i <= |r| { OccursLater(r, m, i, |m| + 1); }
    }
  }

  lemma {:induction false} GoneBehindOther(s: string, m: string, i: nat)
    requires Distinctive(m) && |s| >= |m| && !(m <= s)
    ensures !Occurs(ReplaceAll(s, m), m, i)
    decreases |s|, 0
  {
    var r := ReplaceAll(s, m);
    if i == 0 {
      OccursIsPrefix(r, m, 0);
      assert r[0..] == r;
      if m <= r { PrefixWasThere(s, m, m); }
    } else {
      MarkerIsGone(s[1..], m);
      assert r[1..] == ReplaceAll(s[1..], m);
      OccursLater(r, m, i, 1);
    }
  }

  /** A pass leaves no occurrence of its own marker. */
  lemma {:induction false} MarkerIsGone(s: string, m: string)
    requires Distinctive(m)
    ensures !Has(ReplaceAll(s, m), m)
    decreases |s|, 1
  {
    forall i ensures !Occurs(ReplaceAll(s, m), m, i) {
      if |s| >= |m| && i >= 0 {
        if m <= s { GoneBehindMarker(s, m, i); } else { GoneBehindOther(s, m, i); }
      }
    }
  }

  lemma OpenTagIsDistinctive()
    ensures Distinctive(OPEN_TAG)
  {
  }

  lemma EndTagIsDistinctive()
    ensures Distinctive(END_TAG)
  {
  }

  lemma LabelIsDistinctive()
    ensures Distinctive(TOKEN_LABEL)
  {
  }

  lemma MarkersAreDistinctive()
    ensures Distinctive(OPEN_TAG) && Distinctive(END_TAG) && Distinctive(TOKEN_LABEL)
  {
    OpenTagIsDistinctive();
    EndTagIsDistinctive();
    LabelIsDistinctive();
  }

  lemma {:induction false} StaysGone(s: string, marker: string, k: string)
    requires |marker| >= 2 && ZERO_WIDTH_SPACE !in k && |k| > 0 && !Has(s, k)
    ensures !Has(ReplaceAll(s, marker), k)
  {
    if Has(ReplaceAll(s, marker), k) {
      var i :| Occurs(ReplaceAll(s, marker), k, i);
      NothingIsCreated(s, marker, k, i);
    }
  }

  /** After the three passes none of the three markers is left; no pass
      re-creates what an earlier one removed. */
  lemma {:induction false} SanitizeRemovesMarkers(s: string)
    ensures !Has(Sanitize(s), OPEN_TAG) && !Has(Sanitize(s), END_TAG) && !Has(Sanitize(s), TOKEN_LABEL)
  {
    MarkersAreDistinctive();
    var a := ReplaceAll(s, OPEN_TAG);
    var b := ReplaceAll(a, END_TAG);
    MarkerIsGone(s, OPEN_TAG);
    MarkerIsGone(a, END_TAG);
    MarkerIsGone(b, TOKEN_LABEL);
    StaysGone(a, END_TAG, OPEN_TAG);
    StaysGone(b, TOKEN_LABEL, OPEN_TAG);
    StaysGone(b, TOKEN_LABEL, END_TAG);
  }

  lemma {:induction false} VisibleConcat(a: string, b: string)
    ensures Visible(a + b) == Visible(a) + Visible(b)
    decreases |a|
  {
    if |a| == 0 {
      assert a + b == b;
    } else {
      assert (a + b)[1..] == a[1..] + b;
      VisibleConcat(a[1..], b);
    }
  }

  lemma {:induction false} VisibleAll(s: string)
    requires ZERO_WIDTH_SPACE !in s
    ensures Visible(s) == s
    decreases |s|
  {
    if |s| > 0 { VisibleAll(s[1..]); }
  }

  lemma {:induction false} BreakIsInvisible(m: string)
    requires ZERO_WIDTH_SPACE !in m
    ensures Visible(BreakMarker(m)) == m
  {
    VisibleAll(m);
    assert [ZERO_WIDTH_SPACE][1..] == [];
    if |m| < 2 {
      VisibleConcat([ZERO_WIDTH_SPACE], m);
    } else {
      VisibleConcat(m[..1] + [ZERO_WIDTH_SPACE], m[1..]);
      VisibleConcat(m[..1], [ZERO_WIDTH_SPACE]);
      VisibleAll(m[..1]);
      VisibleAll(m[1..]);
      assert m[..1] + m[1..] == m;
    }
  }

  lemma {:induction false} ReplaceIsInvisible(s: string, m: string)
    requires |m| >= 2 && ZERO_WIDTH_SPACE !in m
    ensures Visible(ReplaceAll(s, m)) == Visible(s)
    decreases |s|
  {
    if |s| >= |m| {
      if m <= s {
        ReplaceIsInvisible(s[|m|..], m);
        BreakIsInvisible(m);
        VisibleAll(m);
        VisibleConcat(BreakMarker(m), ReplaceAll(s[|m|..], m));
        VisibleConcat(m, s[|m|..]);
        assert s == m + s[|m|..];
      } else {
        ReplaceIsInvisible(s[1..], m);
        VisibleConcat([s[0]], ReplaceAll(s[1..], m));
        VisibleConcat([s[0]], s[1..]);
        assert s == [s[0]] + s[1..];
      }
    }
  }

  /** Taking the zero-width spaces out again gives the body back, if it had none. */
  lemma {:induction false} SanitizeIsReversible(body: string)
    ensures Visible(Sanitize(body)) == Visible(body)
    ensures ZERO_WIDTH_SPACE !in body ==> Visible(Sanitize(body)) == body
  {
    MarkersAreDistinctive();
    var a := ReplaceAll(body, OPEN_TAG);
    var b := ReplaceAll(a, END_TAG);
    ReplaceIsInvisible(body, OPEN_TAG);
    ReplaceIsInvisible(a, END_TAG);
    ReplaceIsInvisible(b, TOKEN_LABEL);
    if ZERO_WIDTH_SPACE !in body { VisibleAll(body); }
  }

  /** What the token source can return: 32 hex digits, or the fixed sentinel. */
  predicate IsToken(token: string) {
    (|token| == 32 && forall i :: 0 <= i < 32 ==> IsHexDigit(token[i])) || token == "rand-unavailable"
  }

  function TokenLine(token: string): string {
    TOKEN_LABEL + token
  }

  /** Five parts, the third written twice, on lines of their own. */
  function Layout(tag: string, warning: string, token: string, body: string, end: string): string {
    tag + "\n" + (warning + "\n" + (token + "\n" + (body + "\n" + (token + "\n" + end))))
  }

  function Wrapped(body: string, token: string, warning: string): string {
    Layout(OPEN_TAG, warning, TokenLine(token), Sanitize(body), END_TAG)
  }

  /** The occurrences of `m` in `s` are exactly at these positions. */
  ghost predicate OccursExactlyAt(s: string, m: string, positions: set<int>) {
    forall i :: Occurs(s, m, i) <==> i in positions
  }

  function FirstLabel(warning: string): int {
    |OPEN_TAG| + 1 + (|warning| + 1)
  }

  function SecondLabel(body: string, token: string, warning: string): int {
    FirstLabel(warning) + (|TokenLine(token)| + 1 + (|Sanitize(body)| + 1))
  }

  ghost predicate MarkersInPlace(body: string, token: string, warning: string, b: string) {
    && OccursExactlyAt(b, OPEN_TAG, {0})
    && OccursExactlyAt(b, END_TAG, {|b| - |END_TAG|})
    && OccursExactlyAt(b, TOKEN_LABEL, {FirstLabel(warning), SecondLabel(body, token, warning)})
    && FirstLabel(warning) < SecondLabel(body, token, warning) <= |b|
    && b[SecondLabel(body, token, warning)..] == TokenLine(token) + "\n" + END_TAG
  }

  /** Writes the block piece by piece. */
  method Write(tag: string, warning1: string, warning2: string, tokenLabel: string, token: string, body: string,
               end: string)
    returns (b: string)
    ensures b == Layout(tag, warning1 + warning2, tokenLabel + token, body, end)
  {
    b := tag + "\n" + warning1;
    b := b + warning2 + "\n";
    b := b + tokenLabel;
    b := b + token;
    b := b + "\n";
    b := b + body;
    b := b + "\n";
    b := b + tokenLabel;
    b := b + token;
    b := b + "\n";
    b := b + end;
  }

  lemma LacksConcat(a: string, b: string, c: char)
    requires Lacks(a, c) && Lacks(b, c)
    ensures Lacks(a + b, c)
  {
  }

  lemma LastLines(tag: string, warning: string, token: string, body: string, end: string)
    ensures var first := |tag| + 1 + (|warning| + 1);
            var second := first + (|token| + 1 + (|body| + 1));
            second <= |Layout(tag, warning, token, body, end)|
              && Layout(tag, warning, token, body, end)[second..] == token + "\n" + end
  {
  }

  lemma LineSplit(a: string, b: string, m: string, i: int)
    requires |m| > 0 && Lacks(m, '\n')
    ensures Occurs(a + "\n" + b, m, i) <==> Occurs(a, m, i) || Occurs(b, m, i - |a| - 1)
  {
    var s := a + "\n" + b;
    if 0 <= i && i + |m| <= |s| {
      if i + |m| <= |a| {
        assert s[i..i + |m|] == a[i..i + |m|];
      } else if i <= |a| {
        assert s[i..i + |m|][|a| - i] == s[|a|] == '\n';
      } else {
        assert s[i..i + |m|] == b[i - |a| - 1..i - |a| - 1 + |m|];
      }
    }
  }

  lemma PrependLine(a: string, b: string, m: string, inA: set<int>, inB: set<int>, positions: set<int>)
    requires |m| > 0 && Lacks(m, '\n')
    requires OccursExactlyAt(a, m, inA) && OccursExactlyAt(b, m, inB)
    requires forall i :: i in positions <==> i in inA || i - |a| - 1 in inB
    ensures OccursExactlyAt(a + "\n" + b, m, positions)
  {
    forall i ensures Occurs(a + "\n" + b, m, i) <==> i in positions {
      LineSplit(a, b, m, i);
    }
  }

  lemma StartsOnly(a: string, b: string, m: string)
    requires |m| > 0 && Lacks(m, '\n')
    requires OccursExactlyAt(a, m, {0}) && OccursExactlyAt(b, m, {})
    ensures OccursExactlyAt(a + "\n" + b, m, {0})
  {
    PrependLine(a, b, m, {0}, {}, {0});
  }

  lemma ShiftsOne(a: string, b: string, m: string, p: int, p': int)
    requires |m| > 0 && Lacks(m, '\n') && p' == |a| + 1 + p
    requires OccursExactlyAt(a, m, {}) && OccursExactlyAt(b, m, {p})
    ensures OccursExactlyAt(a + "\n" + b, m, {p'})
  {
    PrependLine(a, b, m, {}, {p}, {p'});
  }

  lemma ShiftsTwo(a: string, b: string, m: string, p: int, q: int, p': int, q': int)
    requires |m| > 0 && Lacks(m, '\n') && p' == |a| + 1 + p && q' == |a| + 1 + q
    requires OccursExactlyAt(a, m, {}) && OccursExactlyAt(b, m, {p, q})
    ensures OccursExactlyAt(a + "\n" + b, m, {p', q'})
  {
    PrependLine(a, b, m, {}, {p, q}, {p', q'});
  }

  lemma AddsOne(a: string, b: string, m: string, p: int, p': int)
    requires |m| > 0 && Lacks(m, '\n') && p' == |a| + 1 + p
    requires OccursExactlyAt(a, m, {0}) && OccursExactlyAt(b, m, {p})
    ensures OccursExactlyAt(a + "\n" + b, m, {0, p'})
  {
    PrependLine(a, b, m, {0}, {p}, {0, p'});
  }

  lemma OnTokenLines(tag: string, warning: string, token: string, body: string, end: string, m: string)
    requires |m| > 0 && Lacks(m, '\n')
    requires OccursExactlyAt(tag, m, {}) && OccursExactlyAt(warning, m, {}) && OccursExactlyAt(token, m, {0})
    requires OccursExactlyAt(body, m, {}) && OccursExactlyAt(end, m, {})
    ensures var first := |tag| + 1 + (|warning| + 1);
            OccursExactlyAt(Layout(tag, warning, token, body, end), m, {first, first + (|token| + 1 + (|body| + 1))})
  {
    var first := |tag| + 1 + (|warning| + 1);
    var gap := |token| + 1 + (|body| + 1);
    var t4 := token + "\n" + end;
    var t3 := body + "\n" + t4;
    var t2 := token + "\n" + t3;
    StartsOnly(token, end, m);
    ShiftsOne(body, t4, m, 0, |body| + 1);
    AddsOne(token, t3, m, |body| + 1, gap);
    ShiftsTwo(warning, t2, m, 0, gap, |warning| + 1, |warning| + 1 + gap);
    ShiftsTwo(tag, warning + "\n" + t2, m, |warning| + 1, |warning| + 1 + gap, first, first + gap);
  }

  lemma LabelFacts()
    ensures Lacks(TOKEN_LABEL, '<') && Lacks(TOKEN_LABEL, '\n')
    ensures TOKEN_LABEL[14] == ':' && forall k :: 0 <= k < |TOKEN_LABEL| && TOKEN_LABEL[k] == ':' ==> k == 14
  {
  }

  lemma AbsentByChar(s: string, m: string, j: nat)
    requires j < |m| && Lacks(s, m[j])
    ensures OccursExactlyAt(s, m, {})
  {
    forall i ensures !Occurs(s, m, i) {
      if 0 <= i && i + |m| <= |s| { assert s[i..i + |m|][j] == s[i + j]; }
    }
  }

  lemma TagFacts()
    ensures Lacks(OPEN_TAG, ':') && Lacks(END_TAG, ':')
    ensures Lacks(OPEN_TAG, '\n') && Lacks(END_TAG, '\n')
    ensures OPEN_TAG[0] == '<' && END_TAG[0] == '<'
    ensures OPEN_TAG[1] == 'u' && END_TAG[1] == '/' && |END_TAG| == |OPEN_TAG| + 1 && |OPEN_TAG| == 28
  {
  }

  /** A notice holds neither tag nor label. */
  lemma NoticeHasNoMarkers(warning: Notice)
    ensures OccursExactlyAt(warning, OPEN_TAG, {}) && OccursExactlyAt(warning, END_TAG, {})
    ensures OccursExactlyAt(warning, TOKEN_LABEL, {})
  {
    TagFacts();
    LabelFacts();
    AbsentByChar(warning, OPEN_TAG, 0);
    AbsentByChar(warning, END_TAG, 0);
    AbsentByChar(warning, TOKEN_LABEL, 14);
  }

  /** A text in which one character of the marker occurs once can hold the
      marker only there. */
  lemma AnchoredByChar(s: string, m: string, j: nat)
    requires j < |m| && m <= s && forall k :: 0 <= k < |s| && s[k] == m[j] ==> k == j
    ensures OccursExactlyAt(s, m, {0})
  {
    assert s[0..|m|] == m;
    forall i ensures Occurs(s, m, i) <==> i == 0 {
      if 0 <= i && i + |m| <= |s| { assert s[i..i + |m|][j] == s[i + j]; }
    }
  }

  lemma SentinelLacks(c: char)
    requires c == '<' || c == ':' || c == '\n'
    ensures Lacks("rand-unavailable", c)
  {
  }

  lemma TokenLacks(token: string, c: char)
    requires IsToken(token) && (c == '<' || c == ':' || c == '\n')
    ensures Lacks(token, c)
  {
    if |token| == 32 && forall i :: 0 <= i < 32 ==> IsHexDigit(token[i]) {
    } else {
      SentinelLacks(c);
    }
  }

  lemma TokenLineMarkers(token: string)
    requires IsToken(token)
    ensures OccursExactlyAt(TokenLine(token), OPEN_TAG, {}) && OccursExactlyAt(TokenLine(token), END_TAG, {})
    ensures OccursExactlyAt(TokenLine(token), TOKEN_LABEL, {0})
  {
    LabelFacts();
    TokenLacks(token, '<');
    TokenLacks(token, ':');
    LacksConcat(TOKEN_LABEL, token, '<');
    AbsentByChar(TokenLine(token), OPEN_TAG, 0);
    AbsentByChar(TokenLine(token), END_TAG, 0);
    AnchoredByChar(TokenLine(token), TOKEN_LABEL, 14);
  }

  lemma OccursInItself(m: string)
    ensures OccursExactlyAt(m, m, {0})
  {
    assert m[0..|m|] == m;
  }

  lemma NoOpenTagInEndTag()
    ensures OccursExactlyAt(END_TAG, OPEN_TAG, {})
  {
    TagFacts();
    EndTagIsDistinctive();
    forall i ensures !Occurs(END_TAG, OPEN_TAG, i) {
      if 0 <= i && i + |OPEN_TAG| <= |END_TAG| {
        assert END_TAG[i..i + |OPEN_TAG|][0] == END_TAG[i] && END_TAG[i..i + |OPEN_TAG|][1] == END_TAG[i + 1];
      }
    }
  }

  lemma TagsInTags()
    ensures OccursExactlyAt(OPEN_TAG, OPEN_TAG, {0}) && OccursExactlyAt(OPEN_TAG, END_TAG, {})
    ensures OccursExactlyAt(END_TAG, OPEN_TAG, {}) && OccursExactlyAt(END_TAG, END_TAG, {0})
    ensures OccursExactlyAt(OPEN_TAG, TOKEN_LABEL, {}) && OccursExactlyAt(END_TAG, TOKEN_LABEL, {})
  {
    TagFacts();
    LabelFacts();
    OccursInItself(OPEN_TAG);
    OccursInItself(END_TAG);
    AbsentByChar(OPEN_TAG, TOKEN_LABEL, 14);
    AbsentByChar(END_TAG, TOKEN_LABEL, 14);
    NoOpenTagInEndTag();
  }

  lemma {:induction false} LabelPerLine(body: string, token: string, warning: Notice)
    requires IsToken(token)
    ensures OccursExactlyAt(OPEN_TAG, TOKEN_LABEL, {}) && OccursExactlyAt(END_TAG, TOKEN_LABEL, {})
    ensures OccursExactlyAt(warning, TOKEN_LABEL, {}) && OccursExactlyAt(Sanitize(body), TOKEN_LABEL, {})
    ensures OccursExactlyAt(TokenLine(token), TOKEN_LABEL, {0})
    ensures Lacks(TOKEN_LABEL, '\n')
  {
    TagsInTags();
    LabelFacts();
    NoticeHasNoMarkers(warning);
    TokenLineMarkers(token);
    SanitizeRemovesMarkers(body);
  }

  lemma {:induction false} LabelTwice(body: string, token: string, warning: Notice)
    requires IsToken(token)
    ensures var positions := {FirstLabel(warning), SecondLabel(body, token, warning)};
            OccursExactlyAt(Wrapped(body, token, warning), TOKEN_LABEL, positions)
  {
    LabelPerLine(body, token, warning);
    OnTokenLines(OPEN_TAG, warning, TokenLine(token), Sanitize(body), END_TAG, TOKEN_LABEL);
  }

  lemma StaysAbsent(a: string, b: string, m: string)
    requires |m| > 0 && Lacks(m, '\n')
    requires OccursExactlyAt(a, m, {}) && OccursExactlyAt(b, m, {})
    ensures OccursExactlyAt(a + "\n" + b, m, {})
  {
    PrependLine(a, b, m, {}, {}, {});
  }

  lemma AtStart(tag: string, warning: string, token: string, body: string, end: string, m: string)
    requires |m| > 0 && Lacks(m, '\n')
    requires OccursExactlyAt(tag, m, {0}) && OccursExactlyAt(warning, m, {}) && OccursExactlyAt(token, m, {})
    requires OccursExactlyAt(body, m, {}) && OccursExactlyAt(end, m, {})
    ensures OccursExactlyAt(Layout(tag, warning, token, body, end), m, {0})
  {
    StaysAbsent(token, end, m);
    StaysAbsent(body, token + "\n" + end, m);
    StaysAbsent(token, body + "\n" + (token + "\n" + end), m);
    StaysAbsent(warning, token + "\n" + (body + "\n" + (token + "\n" + end)), m);
    StartsOnly(tag, warning + "\n" + (token + "\n" + (body + "\n" + (token + "\n" + end))), m);
  }

  lemma {:induction false} OpenTagPerLine(body: string, token: string, warning: Notice)
    requires IsToken(token)
    ensures OccursExactlyAt(OPEN_TAG, OPEN_TAG, {0}) && OccursExactlyAt(END_TAG, OPEN_TAG, {})
    ensures OccursExactlyAt(warning, OPEN_TAG, {}) && OccursExactlyAt(Sanitize(body), OPEN_TAG, {})
    ensures OccursExactlyAt(TokenLine(token), OPEN_TAG, {})
    ensures Lacks(OPEN_TAG, '\n')
  {
    TagFacts();
    TagsInTags();
    NoticeHasNoMarkers(warning);
    TokenLineMarkers(token);
    SanitizeRemovesMarkers(body);
  }

  lemma {:induction false} OpenTagOnce(body: string, token: string, warning: Notice)
    requires IsToken(token)
    ensures OccursExactlyAt(Wrapped(body, token, warning), OPEN_TAG, {0})
  {
    OpenTagPerLine(body, token, warning);
    AtStart(OPEN_TAG, warning, TokenLine(token), Sanitize(body), END_TAG, OPEN_TAG);
  }

  lemma StaysAtEnd(a: string, b: string, m: string)
    requires |m| > 0 && Lacks(m, '\n')
    requires OccursExactlyAt(a, m, {}) && OccursExactlyAt(b, m, {|b| - |m|})
    ensures OccursExactlyAt(a + "\n" + b, m, {|a + "\n" + b| - |m|})
  {
    PrependLine(a, b, m, {}, {|b| - |m|}, {|a + "\n" + b| - |m|});
  }

  /** A closing line found nowhere else ends the layout. */
  lemma AtEnd(tag: string, warning: string, token: string, body: string, end: string)
    requires |end| > 0 && Lacks(end, '\n')
    requires OccursExactlyAt(tag, end, {}) && OccursExactlyAt(warning, end, {}) && OccursExactlyAt(token, end, {})
    requires OccursExactlyAt(body, end, {}) && OccursExactlyAt(end, end, {0})
    ensures var all := Layout(tag, warning, token, body, end); OccursExactlyAt(all, end, {|all| - |end|})
  {
    var t4 := token + "\n" + end;
    var t3 := body + "\n" + t4;
    var t2 := token + "\n" + t3;
    StaysAtEnd(token, end, end);
    StaysAtEnd(body, t4, end);
    StaysAtEnd(token, t3, end);
    StaysAtEnd(warning, t2, end);
    StaysAtEnd(tag, warning + "\n" + t2, end);
  }

  lemma {:induction false} EndTagPerLine(body: string, token: string, warning: Notice)
    requires IsToken(token)
    ensures OccursExactlyAt(OPEN_TAG, END_TAG, {}) && OccursExactlyAt(END_TAG, END_TAG, {0})
    ensures OccursExactlyAt(warning, END_TAG, {}) && OccursExactlyAt(Sanitize(body), END_TAG, {})
    ensures OccursExactlyAt(TokenLine(token), END_TAG, {})
    ensures Lacks(END_TAG, '\n')
  {
    TagFacts();
    TagsInTags();
    NoticeHasNoMarkers(warning);
    TokenLineMarkers(token);
    SanitizeRemovesMarkers(body);
  }

  lemma {:induction false} EndTagOnce(body: string, token: string, warning: Notice)
    requires IsToken(token)
    ensures OccursExactlyAt(Wrapped(body, token, warning), END_TAG, {|Wrapped(body, token, warning)| - |END_TAG|})
  {
    EndTagPerLine(body, token, warning);
    AtEnd(OPEN_TAG, warning, TokenLine(token), Sanitize(body), END_TAG);
  }

  lemma {:induction false} MarkersWhereTheyBelong(body: string, token: string, warning: Notice)
    requires IsToken(token)
    ensures MarkersInPlace(body, token, warning, Wrapped(body, token, warning))
  {
    OpenTagOnce(body, token, warning);
    EndTagOnce(body, token, warning);
    LabelTwice(body, token, warning);
    LastLines(OPEN_TAG, warning, TokenLine(token), Sanitize(body), END_TAG);
  }

  ghost predicate EndsWith(s: string, end: string) {
    |end| <= |s| && s[|s| - |end|..] == end
  }

  lemma TagIsFirst(tag: string, warning: string, token: string, body: string, end: string)
    ensures tag <= Layout(tag, warning, token, body, end)
  {
  }

  lemma TailIsEnd(s: string, i: nat, end: string)
    requires i <= |s| && s[i..] == end
    ensures EndsWith(s, end)
  {
    assert |s| - |end| == i;
  }

  lemma JoinLines(first: string, token: string, end: string)
    ensures first + token + "\n" + end == first + (token + ("\n" + end))
  {
  }

  /** The block begins and ends so. */
  lemma BlockEnds(body: string, token: string, warning: string, b: string)
    requires MarkersInPlace(body, token, warning, b) && b == Wrapped(body, token, warning)
    ensures "<untrusted-local-db-context>" <= b
    ensures EndsWith(b, "boundary-token: " + (token + ("\n" + "</untrusted-local-db-context>")))
  {
    TagIsFirst(OPEN_TAG, warning, TokenLine(token), Sanitize(body), END_TAG);
    TailIsEnd(b, SecondLabel(body, token, warning), TokenLine(token) + "\n" + END_TAG);
    JoinLines(TOKEN_LABEL, token, END_TAG);
  }

  /** For every body, token and notices the opening tag occurs once, at the start,
      the closing tag once, at the end, and the label twice, the second time
      on the line right before the closing tag. */
  method WrapUntrustedLocalDB(body: string, token: string, data: Notice, boundary: Notice) returns (b: string)
    requires IsToken(token)
    ensures b == Wrapped(body, token, data + boundary)
    ensures MarkersInPlace(body, token, data + boundary, b)
    ensures "<untrusted-local-db-context>" <= b
    ensures EndsWith(b, "boundary-token: " + (token + ("\n" + "</untrusted-local-db-context>")))
  {
    var sanitized := Sanitize(body);
    b := Write(OPEN_TAG, data, boundary, TOKEN_LABEL, token, sanitized, END_TAG);
    LacksConcat(data, boundary, '<');
    LacksConcat(data, boundary, ':');
    MarkersWhereTheyBelong(body, token, data + boundary);
    BlockEnds(body, token, data + boundary, b);
  }
}
