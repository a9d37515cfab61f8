/** The caps on a drafted decision: clean, scan, reject or shorten. */
module DraftCaps {
  import opened Ids
  import opened Utf8
  import S = StableSort

  const MAX_TITLE_RUNES := 80
  const MAX_DECISION_RUNES := 200
  const MAX_RATIONALE_RUNES := 400
  const MAX_ALTERNATIVES := 3
  const MAX_ALTERNATIVE_BYTES: nat := 100

  datatype Verdict = Accepted | Injection(field: string) | TooLong(field: string)

  /** The verdicts of the Unicode tables and of the injection pattern. */
  datatype Rules = Rules(format: Rune -> bool, flagged: seq<Byte> -> bool)

  /** Characters that survive cleaning: no format characters, no control characters but tab. */
  function Survives(rules: Rules): Rune -> bool {
    (r: Rune) => !rules.format(r) && (r >= 0x20 || r == 9)
  }

  function Strip(rules: Rules, s: seq<Byte>): seq<Byte>
    requires Valid(s)
  {
    EncodeAll(S.Filter(Survives(rules), Runes(s)))
  }

  /** The characters that are neither format characters nor, but for the tab,
      below the space. */
  ghost function Surviving(rules: Rules, rs: seq<Rune>): seq<Rune> {
    if |rs| == 0 then []
    else
      var r := rs[|rs| - 1];
      Surviving(rules, rs[..|rs| - 1]) + if !rules.format(r) && (r == 9 || r >= 32) then [r] else []
  }

  lemma {:induction false} FilterIsSurviving(rules: Rules, rs: seq<Rune>)
    ensures S.Filter(Survives(rules), rs) == Surviving(rules, rs)
    decreases |rs|
  {
    if |rs| > 0 { FilterIsSurviving(rules, rs[..|rs| - 1]); }
  }

  /** Cleaned text is valid and made of the surviving characters, in order. */
  ghost predicate IsCleaned(rules: Rules, s: seq<Byte>, t: seq<Byte>)
    requires Valid(s)
  {
    Valid(t) && Runes(t) == Surviving(rules, Runes(s))
  }

  lemma {:induction false} StripIsValid(rules: Rules, s: seq<Byte>)
    requires Valid(s)
    ensures IsCleaned(rules, s, Strip(rules, s))
  {
    DecodeEncode(S.Filter(Survives(rules), Runes(s)));
    FilterIsSurviving(rules, Runes(s));
  }

  function Shorten(s: seq<Byte>): seq<Byte>
    requires Valid(s)
  {
    EncodeAll(Runes(s)[..Fit(Runes(s), MAX_ALTERNATIVE_BYTES)])
  }

  /** Cut to a hundred bytes, backing up to the start of a character. */
  ghost predicate IsShortened(s: seq<Byte>, t: seq<Byte>) {
    && t <= s && Valid(t) && |t| <= 100
    && (if |s| <= 100 then t == s else IsCut(s, 100, |t|))
  }

  class DecisionDraft {
    var title: seq<Byte>
    var decision: seq<Byte>
    var rationale: seq<Byte>
    var alternatives: seq<seq<Byte>>

    /** JSON decoding only ever produces valid text. */
    ghost predicate WellFormed()
      reads this
    {
      && Valid(title) && Valid(decision) && Valid(rationale)
      && forall i :: 0 <= i < |alternatives| ==> Valid(alternatives[i])
    }

    constructor (title: seq<Byte>, decision: seq<Byte>, rationale: seq<Byte>, alternatives: seq<seq<Byte>>)
      ensures this.title == title && this.decision == decision && this.rationale == rationale
                && this.alternatives == alternatives
    {
      this.title, this.decision, this.rationale, this.alternatives := title, decision, rationale, alternatives;
    }

    method StripAlternatives(rules: Rules)
      requires WellFormed()
      modifies `alternatives
      ensures WellFormed() && |alternatives| == |old(alternatives)|
      ensures forall i :: 0 <= i < |alternatives| ==> IsCleaned(rules, old(alternatives)[i], alternatives[i])
    {
      var i := 0;
      while i < |alternatives|
        modifies `alternatives
        invariant 0 <= i <= |alternatives| == |old(alternatives)|
        invariant forall k :: 0 <= k < i ==>
                    IsCleaned(rules, old(alternatives)[k], alternatives[k])
        invariant forall k :: i <= k < |alternatives| ==> alternatives[k] == old(alternatives)[k]
      {
        StripIsValid(rules, alternatives[i]);
        alternatives := alternatives[i := Strip(rules, alternatives[i])];
        i := i + 1;
      }
    }

    method StripFields(rules: Rules)
      requires WellFormed()
      modifies this
      ensures WellFormed()
      ensures IsCleaned(rules, old(title), title) && IsCleaned(rules, old(decision), decision)
                && IsCleaned(rules, old(rationale), rationale) && |alternatives| == |old(alternatives)|
                && forall i :: 0 <= i < |alternatives| ==> IsCleaned(rules, old(alternatives)[i], alternatives[i])
    {
      StripIsValid(rules, title);
      StripIsValid(rules, decision);
      StripIsValid(rules, rationale);
      title := Strip(rules, title);
      decision := Strip(rules, decision);
      rationale := Strip(rules, rationale);
      StripAlternatives(rules);
    }

    predicate Clean(rules: Rules)
      reads this
    {
      && !rules.flagged(title) && !rules.flagged(decision) && !rules.flagged(rationale)
      && forall i :: 0 <= i < |alternatives| ==> !rules.flagged(alternatives[i])
    }

    /** The first flagged field, if any. */
    method FirstInjectionField(rules: Rules) returns (field: string)
      ensures field == "" <==> Clean(rules)
      ensures field == "title" <==> rules.flagged(title)
      ensures field == "decision" <==> !rules.flagged(title) && rules.flagged(decision)
      ensures field == "rationale" <==> !rules.flagged(title) && !rules.flagged(decision) && rules.flagged(rationale)
      ensures field in {"", "title", "decision", "rationale", "alternatives"}
    {
      if rules.flagged(title) { return "title"; }
      if rules.flagged(decision) { return "decision"; }
      if rules.flagged(rationale) { return "rationale"; }
      var i := 0;
      while i < |alternatives|
        invariant 0 <= i <= |alternatives|
        invariant forall k :: 0 <= k < i ==> !rules.flagged(alternatives[k])
      {
        if rules.flagged(alternatives[i]) { return "alternatives"; }
        i := i + 1;
      }
      return "";
    }

    /** The first field over its cap is refused. */
    ghost function CapVerdict(): Verdict
      requires Valid(title) && Valid(decision) && Valid(rationale)
      reads this
    {
      if |Runes(title)| > 80 then TooLong("title")
      else if |Runes(decision)| > 200 then TooLong("decision")
      else if |Runes(rationale)| > 400 then TooLong("rationale")
      else Accepted
    }

    method ShortenAlternatives()
      requires WellFormed()
      modifies `alternatives
      ensures |alternatives| == if |old(alternatives)| > 3 then 3 else |old(alternatives)|
      ensures forall i :: 0 <= i < |alternatives| ==>
                alternatives[i] == Shorten(old(alternatives)[i]) && IsShortened(old(alternatives)[i], alternatives[i])
    {
      if |alternatives| > MAX_ALTERNATIVES {
        alternatives := alternatives[..MAX_ALTERNATIVES];
      }
      var i := 0;
      ghost var n := |alternatives|;
      while i < |alternatives|
        invariant 0 <= i <= |alternatives| == n <= |old(alternatives)|
        invariant forall k :: 0 <= k < i ==>
                    && alternatives[k] == Shorten(old(alternatives)[k])
                    && IsShortened(old(alternatives)[k], alternatives[k])
        invariant forall k :: i <= k < n ==> alternatives[k] == old(alternatives)[k]
      {
        var t := TruncateToBytes(alternatives[i], MAX_ALTERNATIVE_BYTES);
        alternatives := alternatives[i := t];
        i := i + 1;
      }
    }

    /** Cleans every field, then scans the whole of every field, then applies the
        caps; only an accepted draft has its alternatives shortened. */
    method EnforceDraftCaps(rules: Rules) returns (verdict: Verdict, ghost cleaned: seq<seq<Byte>>)
      requires WellFormed()
      modifies this
      ensures WellFormed()
      ensures IsCleaned(rules, old(title), title) && IsCleaned(rules, old(decision), decision)
                && IsCleaned(rules, old(rationale), rationale) && |cleaned| == |old(alternatives)|
                && forall i :: 0 <= i < |cleaned| ==> IsCleaned(rules, old(alternatives)[i], cleaned[i])
      ensures verdict == Injection("title") <==> rules.flagged(title)
      ensures verdict == Injection("decision") <==> !rules.flagged(title) && rules.flagged(decision)
      ensures verdict == Injection("rationale") <==>
                !rules.flagged(title) && !rules.flagged(decision) && rules.flagged(rationale)
      ensures verdict == Injection("alternatives") <==>
                && !rules.flagged(title) && !rules.flagged(decision) && !rules.flagged(rationale)
                && exists i :: 0 <= i < |cleaned| && rules.flagged(cleaned[i])
      ensures verdict.Injection? ==> verdict.field in {"title", "decision", "rationale", "alternatives"}
      ensures !verdict.Injection? ==> verdict == CapVerdict()
      ensures !verdict.Accepted? ==> alternatives == cleaned
      ensures verdict.Accepted? ==>
                && |alternatives| == (if |cleaned| > 3 then 3 else |cleaned|)
                && forall i :: 0 <= i < |alternatives| ==> IsShortened(cleaned[i], alternatives[i])
    {
      StripFields(rules);
      cleaned := alternatives;
      var field := FirstInjectionField(rules);
      if field != "" {
        return Injection(field), cleaned;
      }
      if |Runes(title)| > MAX_TITLE_RUNES { return TooLong("title"), cleaned; }
      if |Runes(decision)| > MAX_DECISION_RUNES { return TooLong("decision"), cleaned; }
      if |Runes(rationale)| > MAX_RATIONALE_RUNES { return TooLong("rationale"), cleaned; }
      ShortenAlternatives();
      return Accepted, cleaned;
    }
  }

  // ----- why the cap comes after the scan -----

  predicate OccursAt(marker: seq<Byte>, s: seq<Byte>, i: nat) {
    i + |marker| <= |s| && s[i..i + |marker|] == marker
  }

  /** A pattern that is one fixed marker. */
  ghost predicate Occurs(marker: seq<Byte>, s: seq<Byte>) {
    exists i: nat :: OccursAt(marker, s, i)
  }

  lemma {:induction false} ShortenIsPrefix(s: seq<Byte>)
    requires Valid(s)
    ensures Shorten(s) <= s && |Shorten(s)| <= MAX_ALTERNATIVE_BYTES
  {
    EncodePrefix(Runes(s), Fit(Runes(s), MAX_ALTERNATIVE_BYTES));
    EncodeDecode(s);
  }

  /** Cutting first hides a marker exactly when every place it occurs at ends
      past the cut. */
  lemma {:induction false} CuttingFirstHidesIff(marker: seq<Byte>, s: seq<Byte>)
    requires Valid(s) && Occurs(marker, s)
    ensures !Occurs(marker, Shorten(s)) <==> forall i: nat :: OccursAt(marker, s, i) ==> i + |marker| > |Shorten(s)|
  {
    ShortenIsPrefix(s);
    var cut := Shorten(s);
    forall i: nat ensures OccursAt(marker, cut, i) <==> OccursAt(marker, s, i) && i + |marker| <= |cut| {
      if i + |marker| <= |cut| { assert cut[i..i + |marker|] == s[i..i + |marker|]; }
    }
  }

  lemma NothingOccurs(marker: seq<Byte>, s: seq<Byte>)
    requires |marker| > 0 && forall k :: 0 <= k < |s| ==> s[k] !in marker
    ensures !Occurs(marker, s)
  {
    forall i: nat ensures !OccursAt(marker, s, i) {
      if i + |marker| <= |s| { assert s[i..i + |marker|][0] == s[i]; }
    }
  }

  /** Any marker can be hidden so: behind a hundred bytes none of which is in it,
      the scan of the whole text finds it and a scan after the cut does not. */
  lemma {:induction false} PaddingHidesMarker(pad: seq<Byte>, marker: seq<Byte>)
    requires |pad| >= MAX_ALTERNATIVE_BYTES && |marker| > 0 && Valid(pad + marker)
    requires forall b :: b in pad ==> b !in marker
    ensures Occurs(marker, pad + marker) && !Occurs(marker, Shorten(pad + marker))
  {
    var s := pad + marker;
    assert OccursAt(marker, s, |pad|);
    ShortenIsPrefix(s);
    forall k | 0 <= k < |Shorten(s)| ensures Shorten(s)[k] !in marker {
      assert Shorten(s)[k] == s[k] == pad[k];
    }
    NothingOccurs(marker, Shorten(s));
  }
}
