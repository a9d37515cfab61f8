/** The embedding backfill: batches of rows that lack the target provider's
    embedding, until a batch comes up short. */
module Reembed {
  import opened Ids
  import opened Whitespace

  type Vector = seq<int>

  /** One row; `provider` None is SQL NULL. Rows are listed, and named by their
      place, in the order the batches select them. */
  datatype Row = Row(text: string, embedding: Option<Vector>, provider: Option<string>, dim: int)

  /** The target, and what embedding and writing come to for each text and row. */
  datatype Env = Env(target: string, dim: int, embed: string -> Option<Vector>, writes: nat -> bool)

  /** A row and its place in that order. */
  datatype Slot = Slot(place: nat, row: Row)

  predicate Blank(row: Row) {
    forall c :: c in row.text ==> IsSpace(c)
  }

  /** `embedding IS NULL OR embedding_provider <> $1`: a NULL provider makes the
      comparison unknown, so such a row is not selected. */
  predicate Pending(env: Env, row: Row) {
    row.embedding.None? || (row.provider.Some? && row.provider.value != env.target)
  }

  predicate Good(env: Env, s: Slot) {
    !Blank(s.row) && env.embed(s.row.text).Some? && env.writes(s.place)
  }

  function Written(env: Env, s: Slot): Slot {
    if Good(env, s)
    then s.(row := s.row.(embedding := env.embed(s.row.text), provider := Some(env.target), dim := env.dim))
    else s
  }

  /** A row that lacks the target's embedding, has text, embeds and can be written,
      by its columns. */
  ghost predicate CanBeWritten(env: Env, s: Slot) {
    && (s.row.embedding == None || (s.row.provider.Some? && s.row.provider.value != env.target))
    && HasText(s.row.text) && env.embed(s.row.text).Some? && env.writes(s.place)
  }

  /** `w` is the row with the target's embedding of its text. */
  ghost predicate IsRewrite(env: Env, s: Slot, w: Slot) {
    && w.place == s.place && w.row.text == s.row.text
    && w.row.embedding == env.embed(s.row.text) && w.row.provider == Some(env.target) && w.row.dim == env.dim
  }

  lemma WrittenColumns(env: Env, s: Slot)
    ensures CanBeWritten(env, s) <==> Pending(env, s.row) && Good(env, s)
    ensures Good(env, s) ==> IsRewrite(env, s, Written(env, s))
    ensures !Good(env, s) ==> Written(env, s) == s
  {
    HasTextIff(s.row.text);
  }

  /** The table after one batch of at most `quota` rows. */
  function Batch(env: Env, t: seq<Slot>, quota: nat): (r: seq<Slot>)
    ensures |r| == |t|
  {
    if |t| == 0 || quota == 0 then t
    else if Pending(env, t[0].row) then [Written(env, t[0])] + Batch(env, t[1..], quota - 1)
    else [t[0]] + Batch(env, t[1..], quota)
  }

  /** The rows a batch counts: selected and not blank. */
  function Counted(env: Env, t: seq<Slot>, quota: nat): (n: nat)
    ensures n <= quota
  {
    if |t| == 0 || quota == 0 then 0
    else if Pending(env, t[0].row) then (if Blank(t[0].row) then 0 else 1) + Counted(env, t[1..], quota - 1)
    else Counted(env, t[1..], quota)
  }

  function PendingCount(env: Env, t: seq<Slot>): nat {
    if |t| == 0 then 0 else (if Pending(env, t[0].row) then 1 else 0) + PendingCount(env, t[1..])
  }

  /** Is this batch the last one? */
  predicate Short(env: Env, t: seq<Slot>, size: nat) {
    Counted(env, t, size) < size
  }

  /** The table after at most `n` batches, and whether the loop has ended. */
  datatype Progress = Progress(table: seq<Slot>, ended: bool)

  function After(env: Env, t: seq<Slot>, size: nat, n: nat): Progress {
    if n == 0 then Progress(t, false)
    else
      var p := After(env, t, size, n - 1);
      if p.ended then p else Progress(Batch(env, p.table, size), Short(env, p.table, size))
  }

  /** The places the SELECT returns. */
  function Selected(env: Env, t: seq<Slot>, quota: nat, from: nat): seq<nat> {
    if |t| == 0 || quota == 0 then []
    else if Pending(env, t[0].row) then [from] + Selected(env, t[1..], quota - 1, from + 1)
    else Selected(env, t[1..], quota, from + 1)
  }

  function NotBlank(t: seq<Slot>, items: seq<nat>): nat
    requires forall k :: 0 <= k < |items| ==> items[k] < |t|
  {
    if |items| == 0 then 0
    else NotBlank(t, items[..|items| - 1]) + (if Blank(t[items[|items| - 1]].row) then 0 else 1)
  }

  /** The SELECT returns different places, in order. */
  lemma {:induction false} SelectedInOrder(env: Env, t: seq<Slot>, quota: nat, from: nat)
    ensures forall k :: 0 <= k < |Selected(env, t, quota, from)| ==>
              from <= Selected(env, t, quota, from)[k] < from + |t|
    ensures forall j, k :: 0 <= j < k < |Selected(env, t, quota, from)| ==>
              Selected(env, t, quota, from)[j] < Selected(env, t, quota, from)[k]
    decreases |t|
  {
    if |t| > 0 && quota > 0 {
      var items := Selected(env, t, quota, from);
      if Pending(env, t[0].row) {
        SelectedInOrder(env, t[1..], quota - 1, from + 1);
        var rest := Selected(env, t[1..], quota - 1, from + 1);
        forall k | 0 < k < |items| ensures from < items[k] < from + |t| { assert items[k] == rest[k - 1]; }
        forall j, k | 0 <= j < k < |items| ensures items[j] < items[k] {
          assert items[k] == rest[k - 1];
          if j > 0 { assert items[j] == rest[j - 1]; }
        }
      } else {
        SelectedInOrder(env, t[1..], quota, from + 1);
        assert items == Selected(env, t[1..], quota, from + 1);
      }
    }
  }

  lemma InRest(x: nat, rest: seq<nat>, y: nat)
    ensures y in [x] + rest <==> y == x || y in rest
  {
  }

  /** The batch is what writing exactly the selected rows does. */
  lemma {:induction false} BatchWritesSelected(env: Env, t: seq<Slot>, quota: nat, from: nat, i: nat)
    requires i < |t|
    ensures Batch(env, t, quota)[i] == if from + i in Selected(env, t, quota, from) then Written(env, t[i]) else t[i]
    decreases |t|
  {
    if quota > 0 {
      var q := if Pending(env, t[0].row) then quota - 1 else quota;
      var rest := Selected(env, t[1..], q, from + 1);
      if i > 0 {
        BatchWritesSelected(env, t[1..], q, from + 1, i - 1);
        assert Batch(env, t, quota)[i] == Batch(env, t[1..], q)[i - 1];
        InRest(from, rest, from + i);
      } else {
        SelectedInOrder(env, t[1..], q, from + 1);
        forall k | 0 <= k < |rest| ensures rest[k] != from { assert from + 1 <= rest[k]; }
        InRest(from, rest, from);
      }
    }
  }

  lemma {:induction false} SelectedFacts(env: Env, t: seq<Slot>, quota: nat)
    ensures var items := Selected(env, t, quota, 0);
            && (forall k :: 0 <= k < |items| ==> 0 <= items[k] < |t|)
            && (forall j, k :: 0 <= j < k < |items| ==> items[j] < items[k])
            && (forall i :: 0 <= i < |t| ==> Batch(env, t, quota)[i] == if i in items then Written(env, t[i]) else t[i])
  {
    SelectedInOrder(env, t, quota, 0);
    forall i | 0 <= i < |t|
      ensures Batch(env, t, quota)[i] == if i in Selected(env, t, quota, 0) then Written(env, t[i]) else t[i]
    {
      BatchWritesSelected(env, t, quota, 0, i);
    }
  }

  lemma {:induction false} NotBlankFront(t: seq<Slot>, i: nat, items: seq<nat>)
    requires i < |t| && forall k :: 0 <= k < |items| ==> items[k] < |t|
    ensures NotBlank(t, [i] + items) == (if Blank(t[i].row) then 0 else 1) + NotBlank(t, items)
    decreases |items|
  {
    if |items| == 0 {
      assert [i] + items == [i] && [i][..0] == [];
    } else {
      var init := items[..|items| - 1];
      assert ([i] + items)[..|items|] == [i] + init;
      NotBlankFront(t, i, init);
    }
  }

  lemma {:induction false} CountedIsNotBlank(env: Env, t: seq<Slot>, quota: nat, all: seq<Slot>, from: nat)
    requires from <= |all| && t == all[from..]
    ensures forall k :: 0 <= k < |Selected(env, t, quota, from)| ==> Selected(env, t, quota, from)[k] < |all|
    ensures Counted(env, t, quota) == NotBlank(all, Selected(env, t, quota, from))
    decreases |t|
  {
    SelectedInOrder(env, t, quota, from);
    if |t| > 0 && quota > 0 {
      var q := if Pending(env, t[0].row) then quota - 1 else quota;
      assert t[1..] == all[from + 1..];
      CountedIsNotBlank(env, t[1..], q, all, from + 1);
      SelectedInOrder(env, t[1..], q, from + 1);
      if Pending(env, t[0].row) { NotBlankFront(all, from, Selected(env, t[1..], q, from + 1)); }
    }
  }

  class Table {
    var slots: seq<Slot>

    constructor (slots: seq<Slot>)
      ensures this.slots == slots
    {
      this.slots := slots;
    }

    /** Embeds and writes the selected rows one by one. */
    method ReembedRows(env: Env, items: seq<nat>) returns (processed: nat, failed: nat)
      requires forall k :: 0 <= k < |items| ==> items[k] < |slots|
      requires forall j, k :: 0 <= j < k < |items| ==> items[j] != items[k]
      modifies this
      ensures |slots| == |old(slots)|
      ensures forall i :: 0 <= i < |slots| ==>
                slots[i] == if i in items then Written(env, old(slots)[i]) else old(slots)[i]
      ensures processed + failed == NotBlank(old(slots), items)
    {
      processed, failed := 0, 0;
      var k := 0;
      while k < |items|
        invariant 0 <= k <= |items| && |slots| == |old(slots)|
        invariant forall i :: 0 <= i < |slots| ==>
                    slots[i] == if i in items[..k] then Written(env, old(slots)[i]) else old(slots)[i]
        invariant processed + failed == NotBlank(old(slots), items[..k])
      {
        var it := slots[items[k]];
        assert items[..k + 1] == items[..k] + [items[k]] && items[..k + 1][..k] == items[..k];
        if Blank(it.row) {
          // skipped and not counted
        } else if env.embed(it.row.text).None? {
          failed := failed + 1;
        } else if !env.writes(it.place) {
          failed := failed + 1;
        } else {
          slots := slots[items[k] := it.(row := it.row.(embedding := env.embed(it.row.text),
            provider := Some(env.target), dim := env.dim))];
          processed := processed + 1;
        }
        k := k + 1;
      }
      assert items[..k] == items;
    }

    method ReembedBatch(env: Env, size: nat) returns (processed: nat, failed: nat)
      modifies this
      ensures slots == Batch(env, old(slots), size)
      ensures processed + failed == Counted(env, old(slots), size)
    {
      var items := Selected(env, slots, size, 0);
      SelectedFacts(env, slots, size);
      CountedIsNotBlank(env, slots, size, slots, 0);
      processed, failed := ReembedRows(env, items);
    }

    /** The backfill loop; `stopAfter` batches the operator may interrupt it. */
    method ReembedTable(env: Env, size: nat, stopAfter: nat) returns (ended: bool, batches: nat)
      modifies this
      ensures batches <= stopAfter && (!ended ==> batches == stopAfter)
      ensures Progress(slots, ended) == After(env, old(slots), size, batches)
      ensures ended ==> batches > 0 && !After(env, old(slots), size, batches - 1).ended
    {
      ended, batches := false, 0;
      while !ended && batches < stopAfter
        invariant batches <= stopAfter
        invariant Progress(slots, ended) == After(env, old(slots), size, batches)
        invariant ended ==> batches > 0 && !After(env, old(slots), size, batches - 1).ended
        decreases stopAfter - batches
      {
        var n, failed := ReembedBatch(env, size);
        if n + failed < size {
          ended := true;
        }
        batches := batches + 1;
      }
    }
  }
}
