/** UTF-8 as in section 3 of RFC 3629, and cutting a byte string without
    splitting a character. */
module Utf8 {
  import opened Ids

  type Byte = x: int | 0 <= x < 256

  /** A Unicode scalar value: surrogates are excluded. */
  type Rune = r: int | 0 <= r < 0xD800 || 0xE000 <= r < 0x110000

  predicate IsContinuation(b: Byte) {
    0x80 <= b < 0xC0
  }

  /** `utf8.RuneStart`. */
  predicate RuneStart(b: Byte) {
    !IsContinuation(b)
  }

  function Encode(r: Rune): (s: seq<Byte>)
    ensures 1 <= |s| <= 4
    ensures RuneStart(s[0])
    ensures forall i :: 1 <= i < |s| ==> IsContinuation(s[i])
  {
    if r < 0x80 then [r]
    else if r < 0x800 then [0xC0 + r / 0x40, 0x80 + r % 0x40]
    else if r < 0x10000 then [0xE0 + r / 0x1000, 0x80 + r / 0x40 % 0x40, 0x80 + r % 0x40]
    else [0xF0 + r / 0x40000, 0x80 + r / 0x1000 % 0x40, 0x80 + r / 0x40 % 0x40, 0x80 + r % 0x40]
  }

  function EncodeAll(rs: seq<Rune>): seq<Byte> {
    if |rs| == 0 then [] else EncodeAll(rs[..|rs| - 1]) + Encode(rs[|rs| - 1])
  }

  datatype Head = Head(rune: Rune, size: nat)

  predicate Continues(s: seq<Byte>, n: nat) {
    n <= |s| && forall i :: 1 <= i < n ==> IsContinuation(s[i])
  }

  function Value2(b0: int, b1: int): int {
    (b0 - 0xC0) * 0x40 + (b1 - 0x80)
  }

  function Value3(b0: int, b1: int, b2: int): int {
    (b0 - 0xE0) * 0x1000 + (b1 - 0x80) * 0x40 + (b2 - 0x80)
  }

  function Value4(b0: int, b1: int, b2: int, b3: int): int {
    (b0 - 0xF0) * 0x40000 + (b1 - 0x80) * 0x1000 + (b2 - 0x80) * 0x40 + (b3 - 0x80)
  }

  /** The first character of `s`; overlong forms, surrogates and values past
      U+10FFFF are refused. */
  function DecodeHead(s: seq<Byte>): Option<Head> {
    if |s| == 0 then None
    else if s[0] < 0x80 then Some(Head(s[0], 1))
    else if 0xC2 <= s[0] < 0xE0 && Continues(s, 2) then Some(Head(Value2(s[0], s[1]), 2))
    else if 0xE0 <= s[0] < 0xF0 && Continues(s, 3) then
      var r := Value3(s[0], s[1], s[2]);
      if r < 0x800 || 0xD800 <= r < 0xE000 then None else Some(Head(r, 3))
    else if 0xF0 <= s[0] < 0xF5 && Continues(s, 4) then
      var r := Value4(s[0], s[1], s[2], s[3]);
      if r < 0x10000 || r >= 0x110000 then None else Some(Head(r, 4))
    else None
  }

  function Decode(s: seq<Byte>): Option<seq<Rune>>
    decreases |s|
  {
    if |s| == 0 then Some([])
    else
      var h := DecodeHead(s);
      if h.None? || h.value.size == 0 || h.value.size > |s| then None
      else
        var rest := Decode(s[h.value.size..]);
        if rest.None? then None else Some([h.value.rune] + rest.value)
  }

  lemma Join3(r: int)
    requires 0x800 <= r < 0x10000
    ensures Value3(0xE0 + r / 0x1000, 0x80 + r / 0x40 % 0x40, 0x80 + r % 0x40) == r
  {
    assert r / 0x40 / 0x40 == r / 0x1000;
  }

  lemma Join4(r: int)
    requires 0x10000 <= r < 0x110000
    ensures Value4(0xF0 + r / 0x40000, 0x80 + r / 0x1000 % 0x40, 0x80 + r / 0x40 % 0x40, 0x80 + r % 0x40) == r
  {
    assert r / 0x40 / 0x40 == r / 0x1000;
    assert r / 0x1000 / 0x40 == r / 0x40000;
  }

  lemma DecodeEncodedHead(r: Rune, tail: seq<Byte>)
    ensures DecodeHead(Encode(r) + tail) == Some(Head(r, |Encode(r)|))
  {
    var s, e := Encode(r) + tail, Encode(r);
    assert s[0] == e[0] && forall i :: 1 <= i < |e| ==> s[i] == e[i];
    if r < 0x800 {
    } else if r < 0x10000 {
      Join3(r);
      assert 0xE0 <= s[0] < 0xF0 && Continues(s, 3);
    } else {
      Join4(r);
      assert 0xF0 <= s[0] < 0xF5 && Continues(s, 4);
    }
  }

  lemma Split3(b0: int, b1: int, b2: int, r: int)
    requires 0xE0 <= b0 < 0xF0 && 0x80 <= b1 < 0xC0 && 0x80 <= b2 < 0xC0 && r == Value3(b0, b1, b2)
    ensures r / 0x1000 == b0 - 0xE0 && r / 0x40 % 0x40 == b1 - 0x80 && r % 0x40 == b2 - 0x80
  {
    assert r / 0x40 == (b0 - 0xE0) * 0x40 + (b1 - 0x80);
  }

  lemma Split4(b0: int, b1: int, b2: int, b3: int, r: int)
    requires 0xF0 <= b0 < 0xF5 && 0x80 <= b1 < 0xC0 && 0x80 <= b2 < 0xC0 && 0x80 <= b3 < 0xC0
               && r == Value4(b0, b1, b2, b3)
    ensures r / 0x40000 == b0 - 0xF0 && r / 0x1000 % 0x40 == b1 - 0x80 && r / 0x40 % 0x40 == b2 - 0x80
              && r % 0x40 == b3 - 0x80
  {
    assert r / 0x40 == (b0 - 0xF0) * 0x1000 + (b1 - 0x80) * 0x40 + (b2 - 0x80);
    assert r / 0x1000 == (b0 - 0xF0) * 0x40 + (b1 - 0x80);
  }

  lemma EncodeDecodedHead(s: seq<Byte>)
    requires DecodeHead(s).Some?
    ensures var h := DecodeHead(s).value; 0 < h.size <= |s| && Encode(h.rune) == s[..h.size]
  {
    var h := DecodeHead(s).value;
    if h.size == 3 { Split3(s[0], s[1], s[2], h.rune); }
    if h.size == 4 { Split4(s[0], s[1], s[2], s[3], h.rune); }
  }

  lemma Regroup(a: seq<Byte>, b: seq<Byte>, c: seq<Byte>)
    ensures a + b + c == a + (b + c)
  {
  }

  lemma {:induction false} EncodeAllFront(r: Rune, rs: seq<Rune>)
    ensures EncodeAll([r] + rs) == Encode(r) + EncodeAll(rs)
    decreases |rs|
  {
    if |rs| == 0 {
      assert [r] + rs == [r] && [r][..0] == [];
    } else {
      var init, last := rs[..|rs| - 1], rs[|rs| - 1];
      assert ([r] + rs)[..|rs|] == [r] + init && ([r] + rs)[|rs|] == last;
      EncodeAllFront(r, init);
      Regroup(Encode(r), EncodeAll(init), Encode(last));
    }
  }

  /** Decoding undoes encoding, for all texts. */
  lemma {:induction false} DecodeEncode(rs: seq<Rune>)
    ensures Decode(EncodeAll(rs)) == Some(rs)
    decreases |rs|
  {
    if |rs| > 0 {
      var r, rest := rs[0], rs[1..];
      assert rs == [r] + rest;
      EncodeAllFront(r, rest);
      var s := Encode(r) + EncodeAll(rest);
      DecodeEncodedHead(r, EncodeAll(rest));
      assert s[|Encode(r)|..] == EncodeAll(rest);
      DecodeEncode(rest);
    }
  }

  lemma Halves(s: seq<Byte>, n: nat)
    requires n <= |s|
    ensures s[..n] + s[n..] == s
  {
  }

  /** What decodes is the encoding of the result: the valid byte strings are
      exactly the encodings. */
  lemma {:induction false} EncodeDecode(s: seq<Byte>)
    requires Decode(s).Some?
    ensures EncodeAll(Decode(s).value) == s
    decreases |s|
  {
    if |s| > 0 {
      EncodeDecodedHead(s);
      var h := DecodeHead(s).value;
      var tail := s[h.size..];
      EncodeDecode(tail);
      EncodeAllFront(h.rune, Decode(tail).value);
      Halves(s, h.size);
    }
  }

  predicate Valid(s: seq<Byte>) {
    Decode(s).Some?
  }

  function Runes(s: seq<Byte>): seq<Rune>
    requires Valid(s)
  {
    Decode(s).value
  }

  /** The number of leading characters whose encoding fits `limit` bytes. */
  function Fit(rs: seq<Rune>, limit: nat): (n: nat)
    ensures n <= |rs|
    ensures |EncodeAll(rs[..n])| <= limit
    ensures n < |rs| ==> |EncodeAll(rs[..n + 1])| > limit
  {
    if |EncodeAll(rs)| <= limit then
      assert rs[..|rs|] == rs; |rs|
    else
      var n := Fit(rs[..|rs| - 1], limit);
      assert rs[..|rs| - 1][..n] == rs[..n];
      assert n < |rs| - 1 ==> rs[..|rs| - 1][..n + 1] == rs[..n + 1];
      assert rs[..|rs|] == rs;
      n
  }

  lemma {:induction false} EncodePrefix(rs: seq<Rune>, n: nat)
    requires n <= |rs|
    ensures EncodeAll(rs[..n]) <= EncodeAll(rs)
    decreases |rs|
  {
    if n < |rs| {
      var init := rs[..|rs| - 1];
      EncodePrefix(init, n);
      assert init[..n] == rs[..n];
    } else {
      assert rs[..n] == rs;
    }
  }

  lemma {:induction false} PrefixesGrow(rs: seq<Rune>, m: nat, n: nat)
    requires m <= n <= |rs|
    ensures |EncodeAll(rs[..m])| <= |EncodeAll(rs[..n])|
  {
    EncodePrefix(rs[..n], m);
    assert rs[..n][..m] == rs[..m];
  }

  /** Longer prefixes have longer encodings, so the fit is the longest one. */
  lemma {:induction false} FitIsLongest(rs: seq<Rune>, limit: nat, n: nat)
    requires n <= |rs| && |EncodeAll(rs[..n])| <= limit
    ensures n <= Fit(rs, limit)
  {
    var m := Fit(rs, limit);
    if m < n { PrefixesGrow(rs, m + 1, n); }
  }

  /** Where the loop stops: the last character start at or before the limit. */
  ghost predicate IsCut(s: seq<Byte>, limit: nat, cut: nat) {
    && cut <= limit < |s|
    && (cut == 0 || RuneStart(s[cut]))
    && forall k :: cut < k <= limit ==> IsContinuation(s[k])
  }

  lemma {:induction false} ShortTextFits(s: seq<Byte>, limit: nat)
    requires Valid(s) && |s| <= limit
    ensures s == EncodeAll(Runes(s)[..Fit(Runes(s), limit)])
  {
    EncodeDecode(s);
    var rs := Runes(s);
    assert rs[..|rs|] == rs;
    FitIsLongest(rs, limit, |rs|);
  }

  /** In an encoding, the bytes behind a prefix start with one more character. */
  lemma {:induction false} NextCharacter(rs: seq<Rune>, n: nat)
    requires n < |rs|
    ensures var o, e := |EncodeAll(rs[..n])|, |EncodeAll(rs[..n + 1])|;
            && o < e <= o + 4 && e <= |EncodeAll(rs)|
            && RuneStart(EncodeAll(rs)[o])
            && forall k :: o < k < e ==> IsContinuation(EncodeAll(rs)[k])
  {
    var upto := rs[..n + 1];
    assert upto[..n] == rs[..n] && upto[n] == rs[n];
    EncodePrefix(rs, n + 1);
    var o := |EncodeAll(rs[..n])|;
    var all, some, one := EncodeAll(rs), EncodeAll(upto), Encode(rs[n]);
    assert some == EncodeAll(rs[..n]) + one;
    assert all[o] == some[o] == one[0];
    forall k | o < k < |some| ensures IsContinuation(all[k]) {
      assert all[k] == some[k] == one[k - o];
    }
  }

  lemma StopsAtStart(s: seq<Byte>, limit: nat, cut: nat, o: nat, e: nat)
    requires IsCut(s, limit, cut) && o <= limit < e <= |s|
    requires RuneStart(s[o]) && forall k :: o < k < e ==> IsContinuation(s[k])
    ensures cut == o
  {
  }

  lemma {:induction false} CutIsFit(s: seq<Byte>, limit: nat, cut: nat)
    requires Valid(s) && IsCut(s, limit, cut)
    ensures s[..cut] == EncodeAll(Runes(s)[..Fit(Runes(s), limit)])
    ensures limit - cut <= 3
    ensures Valid(s[..cut])
  {
    EncodeDecode(s);
    var rs := Runes(s);
    var n := Fit(rs, limit);
    assert rs[..|rs|] == rs;
    NextCharacter(rs, n);
    EncodePrefix(rs, n);
    var o := |EncodeAll(rs[..n])|;
    StopsAtStart(s, limit, cut, o, |EncodeAll(rs[..n + 1])|);
    assert s[..o] == EncodeAll(rs[..n]);
    DecodeEncode(rs[..n]);
  }

  /** Cuts `s` to at most `limit` bytes, backing up to a character start. */
  method TruncateToBytes(s: seq<Byte>, limit: nat) returns (t: seq<Byte>)
    ensures t <= s && |t| <= limit
    ensures |s| <= limit ==> t == s
    ensures |s| > limit ==> IsCut(s, limit, |t|)
    ensures Valid(s) ==> t == EncodeAll(Runes(s)[..Fit(Runes(s), limit)]) && Valid(t)
    ensures Valid(s) && |s| > limit ==> limit - |t| <= 3
  {
    if |s| <= limit {
      if Valid(s) { ShortTextFits(s, limit); }
      return s;
    }
    var cut := limit;
    while cut > 0 && !RuneStart(s[cut])
      invariant 0 <= cut <= limit
      invariant forall k :: cut < k <= limit ==> IsContinuation(s[k])
    {
      cut := cut - 1;
    }
    if Valid(s) { CutIsFit(s, limit, cut); }
    t := s[..cut];
  }
}
