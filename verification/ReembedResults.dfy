/** What the backfill loop achieves, and exactly when it ends. */
module ReembedResults {
  import opened Ids
  import opened Reembed

  ghost predicate AllGood(env: Env, t: seq<Slot>) {
    forall i :: 0 <= i < |t| && Pending(env, t[i].row) ==> Good(env, t[i])
  }

  /** The wanted table: every pending row written, every other row as it was. */
  function AllWritten(env: Env, t: seq<Slot>): (r: seq<Slot>)
    ensures |r| == |t|
    ensures forall i :: 0 <= i < |t| ==> r[i] == if Pending(env, t[i].row) then Written(env, t[i]) else t[i]
  {
    if |t| == 0 then [] else [if Pending(env, t[0].row) then Written(env, t[0]) else t[0]] + AllWritten(env, t[1..])
  }

  /** The same by the columns: what can be written is, and nothing else changes. */
  ghost predicate IsComplete(env: Env, t: seq<Slot>, u: seq<Slot>) {
    && |u| == |t|
    && forall i :: 0 <= i < |t| ==> if CanBeWritten(env, t[i]) then IsRewrite(env, t[i], u[i]) else u[i] == t[i]
  }

  lemma {:induction false} AllWrittenIsComplete(env: Env, t: seq<Slot>, u: seq<Slot>)
    ensures u == AllWritten(env, t) <==> IsComplete(env, t, u)
  {
    forall i | 0 <= i < |t| && i < |u|
      ensures u[i] == AllWritten(env, t)[i]
         <==> if CanBeWritten(env, t[i]) then IsRewrite(env, t[i], u[i]) else u[i] == t[i]
    {
      WrittenColumns(env, t[i]);
    }
  }

  /** `u` is `t` with some of its rows written that can be, and nothing else
      changed. */
  ghost predicate Advanced(env: Env, t: seq<Slot>, u: seq<Slot>) {
    && |u| == |t|
    && forall i :: 0 <= i < |t| ==> u[i] == t[i] || (CanBeWritten(env, t[i]) && IsRewrite(env, t[i], u[i]))
  }

  lemma {:induction false} BatchAdvances(env: Env, t: seq<Slot>, quota: nat)
    ensures Advanced(env, t, Batch(env, t, quota))
    decreases |t|
  {
    if |t| > 0 && quota > 0 {
      var q := if Pending(env, t[0].row) then quota - 1 else quota;
      BatchAdvances(env, t[1..], q);
      forall i | 0 < i < |t|
        ensures Batch(env, t, quota)[i] == t[i] || (Pending(env, t[i].row) && Good(env, t[i])
                  && Batch(env, t, quota)[i] == Written(env, t[i]))
      {
        assert Batch(env, t, quota)[i] == Batch(env, t[1..], q)[i - 1] && t[1..][i - 1] == t[i];
      }
    }
  }

  lemma AdvancedTransitive(env: Env, t: seq<Slot>, u: seq<Slot>, v: seq<Slot>)
    requires Advanced(env, t, u) && Advanced(env, u, v)
    ensures Advanced(env, t, v)
  {
  }

  /** Rows that already carry the target embedding, and rows nothing can be done
      for, are never touched, whatever the batch size and however often it runs. */
  lemma {:induction false} OthersUntouched(env: Env, t: seq<Slot>, size: nat, n: nat)
    ensures Advanced(env, t, After(env, t, size, n).table)
    decreases n
  {
    if n > 0 {
      OthersUntouched(env, t, size, n - 1);
      var p := After(env, t, size, n - 1);
      BatchAdvances(env, p.table, size);
      AdvancedTransitive(env, t, p.table, Batch(env, p.table, size));
    }
  }

  lemma {:induction false} GoodBatch(env: Env, t: seq<Slot>, quota: nat)
    requires AllGood(env, t)
    ensures AllGood(env, Batch(env, t, quota))
    ensures Counted(env, t, quota) == if PendingCount(env, t) < quota then PendingCount(env, t) else quota
    ensures PendingCount(env, Batch(env, t, quota)) == PendingCount(env, t) - Counted(env, t, quota)
    decreases |t|
  {
    if |t| > 0 && quota > 0 {
      var q := if Pending(env, t[0].row) then quota - 1 else quota;
      assert AllGood(env, t[1..]) by {
        forall i | 0 <= i < |t[1..]| && Pending(env, t[1..][i].row) ensures Good(env, t[1..][i]) {
          assert t[1..][i] == t[i + 1];
        }
      }
      GoodBatch(env, t[1..], q);
      var b := Batch(env, t, quota);
      assert b[1..] == Batch(env, t[1..], q);
      forall i | 0 <= i < |b| && Pending(env, b[i].row) ensures Good(env, b[i]) {
        if i > 0 { assert b[i] == b[1..][i - 1]; }
      }
    }
  }

  /** With only good rows, `n` batches that are not the last write `n * size` rows. */
  lemma {:induction false} GoodProgress(env: Env, t: seq<Slot>, size: nat, n: nat)
    requires AllGood(env, t) && size > 0 && n * size <= PendingCount(env, t)
    ensures var p := After(env, t, size, n);
            !p.ended && AllGood(env, p.table) && PendingCount(env, p.table) == PendingCount(env, t) - n * size
    decreases n
  {
    if n > 0 {
      assert n * size == (n - 1) * size + size;
      GoodProgress(env, t, size, n - 1);
      GoodBatch(env, After(env, t, size, n - 1).table, size);
    }
  }

  lemma {:induction false} NonePending(env: Env, t: seq<Slot>)
    requires PendingCount(env, t) == 0
    ensures forall i :: 0 <= i < |t| ==> !Pending(env, t[i].row)
    decreases |t|
  {
    if |t| > 0 {
      NonePending(env, t[1..]);
      forall i | 0 < i < |t| ensures !Pending(env, t[i].row) { assert t[i] == t[1..][i - 1]; }
    }
  }

  lemma {:induction false} FinishedIsAllWritten(env: Env, t: seq<Slot>, u: seq<Slot>)
    requires Advanced(env, t, u) && PendingCount(env, u) == 0
    ensures u == AllWritten(env, t)
  {
    NonePending(env, u);
  }

  /** Batches needed for `pending` rows. */
  function Batches(pending: nat, size: nat): (n: nat)
    requires size > 0
    ensures n > 0
  {
    pending / size + 1
  }

  lemma FullBatches(pending: nat, size: nat)
    requires size > 0
    ensures pending / size * size <= pending < pending / size * size + size
  {
  }

  lemma {:induction false} LastBatch(env: Env, t: seq<Slot>, size: nat, n: nat)
    requires AllGood(env, t) && size > 0
    requires var p := After(env, t, size, n); !p.ended && AllGood(env, p.table) && PendingCount(env, p.table) < size
    ensures After(env, t, size, n + 1) == Progress(AllWritten(env, t), true)
  {
    GoodBatch(env, After(env, t, size, n).table, size);
    OthersUntouched(env, t, size, n + 1);
    FinishedIsAllWritten(env, t, After(env, t, size, n + 1).table);
  }

  /** When every pending row has text, embeds and writes, the loop ends after
      exactly floor(pending / size) + 1 batches with every pending row written. */
  lemma {:induction false} GoodRunEnds(env: Env, t: seq<Slot>, size: nat)
    requires AllGood(env, t) && size > 0
    ensures var n := Batches(PendingCount(env, t), size);
            && After(env, t, size, n) == Progress(AllWritten(env, t), true)
            && IsComplete(env, t, After(env, t, size, n).table)
            && !After(env, t, size, n - 1).ended
  {
    var p := PendingCount(env, t);
    var n := p / size;
    FullBatches(p, size);
    GoodProgress(env, t, size, n);
    LastBatch(env, t, size, n);
    AllWrittenIsComplete(env, t, AllWritten(env, t));
  }

  lemma {:induction false} GoodStaysGood(env: Env, t: seq<Slot>, size: nat, n: nat)
    requires AllGood(env, t)
    ensures AllGood(env, After(env, t, size, n).table)
    decreases n
  {
    if n > 0 {
      GoodStaysGood(env, t, size, n - 1);
      GoodBatch(env, After(env, t, size, n - 1).table, size);
    }
  }

  /** Interrupting the command after any batch and running it again leads to the
      same final table as one uninterrupted run, also with another batch size. */
  lemma {:induction false} RestartIsSafe(env: Env, t: seq<Slot>, size: nat, stopped: nat, newSize: nat)
    requires AllGood(env, t) && size > 0 && newSize > 0
    ensures var u := After(env, t, size, stopped).table;
            var p := After(env, u, newSize, Batches(PendingCount(env, u), newSize));
            p == Progress(AllWritten(env, t), true) && IsComplete(env, t, p.table)
  {
    var u := After(env, t, size, stopped).table;
    GoodStaysGood(env, t, size, stopped);
    OthersUntouched(env, t, size, stopped);
    GoodRunEnds(env, u, newSize);
    assert AllWritten(env, u) == AllWritten(env, t);
    AllWrittenIsComplete(env, t, AllWritten(env, t));
  }

  lemma CarriesTarget(env: Env, s: Slot)
    requires Pending(env, s.row) ==> Good(env, s)
    ensures var w := if Pending(env, s.row) then Written(env, s) else s;
            w.row.provider == Some(env.target) <==> !(s.row.embedding.Some? && s.row.provider.None?)
  {
  }

  /** "Every row carries the target provider" is what the run achieves exactly
      when no row came with an embedding but a NULL provider. */
  lemma {:induction false} EveryRowCarriesTargetIff(env: Env, t: seq<Slot>)
    requires AllGood(env, t)
    ensures (forall i :: 0 <= i < |t| ==> AllWritten(env, t)[i].row.provider == Some(env.target))
       <==> (forall i :: 0 <= i < |t| ==> !(t[i].row.embedding.Some? && t[i].row.provider.None?))
  {
    var w := AllWritten(env, t);
    forall i | 0 <= i < |t|
      ensures w[i].row.provider == Some(env.target) <==> !(t[i].row.embedding.Some? && t[i].row.provider.None?)
    {
      CarriesTarget(env, t[i]);
    }
    if forall i :: 0 <= i < |t| ==> w[i].row.provider == Some(env.target) {
      forall i | 0 <= i < |t| ensures !(t[i].row.embedding.Some? && t[i].row.provider.None?) {
        assert w[i].row.provider == Some(env.target);
      }
    }
    if forall i :: 0 <= i < |t| ==> !(t[i].row.embedding.Some? && t[i].row.provider.None?) {
      forall i | 0 <= i < |t| ensures w[i].row.provider == Some(env.target) {
        assert !(t[i].row.embedding.Some? && t[i].row.provider.None?);
      }
    }
  }

  /** The failing rows selected ahead of the first blank one. */
  function FailuresFirst(env: Env, t: seq<Slot>): nat {
    if |t| == 0 then 0
    else if !Pending(env, t[0].row) || Good(env, t[0]) then FailuresFirst(env, t[1..])
    else if Blank(t[0].row) then 0
    else 1 + FailuresFirst(env, t[1..])
  }

  /** The rows that can still be written ahead of the first blank one. */
  function GoodFirst(env: Env, t: seq<Slot>): nat {
    if |t| == 0 then 0
    else if !Pending(env, t[0].row) then GoodFirst(env, t[1..])
    else if Blank(t[0].row) then 0
    else (if Good(env, t[0]) then 1 else 0) + GoodFirst(env, t[1..])
  }

  /** A batch never helps a failing or blank row. */
  lemma {:induction false} FailuresStay(env: Env, t: seq<Slot>, quota: nat)
    ensures FailuresFirst(env, Batch(env, t, quota)) == FailuresFirst(env, t)
    decreases |t|
  {
    if |t| > 0 && quota > 0 {
      var q := if Pending(env, t[0].row) then quota - 1 else quota;
      FailuresStay(env, t[1..], q);
      assert Batch(env, t, quota)[1..] == Batch(env, t[1..], q);
    }
  }

  /** A window no wider than the failing rows at the front is never short. */
  lemma {:induction false} FullWindow(env: Env, t: seq<Slot>, quota: nat)
    requires FailuresFirst(env, t) >= quota
    ensures Counted(env, t, quota) == quota
    decreases |t|
  {
    if |t| > 0 && quota > 0 {
      if Pending(env, t[0].row) { FullWindow(env, t[1..], quota - 1); } else { FullWindow(env, t[1..], quota); }
    }
  }

  /** A full batch with fewer failing rows than its size writes at least one row. */
  lemma {:induction false} FullBatchWrites(env: Env, t: seq<Slot>, quota: nat)
    requires Counted(env, t, quota) == quota
    ensures GoodFirst(env, Batch(env, t, quota)) <= GoodFirst(env, t)
    ensures quota <= FailuresFirst(env, t) + GoodFirst(env, t) - GoodFirst(env, Batch(env, t, quota))
    decreases |t|
  {
    if |t| > 0 && quota > 0 {
      var q := if Pending(env, t[0].row) then quota - 1 else quota;
      FullBatchWrites(env, t[1..], q);
      assert Batch(env, t, quota)[1..] == Batch(env, t[1..], q);
    }
  }

  lemma {:induction false} NeverShort(env: Env, t: seq<Slot>, size: nat, n: nat)
    requires FailuresFirst(env, t) >= size > 0
    ensures !After(env, t, size, n).ended
    ensures FailuresFirst(env, After(env, t, size, n).table) == FailuresFirst(env, t)
    decreases n
  {
    if n > 0 {
      NeverShort(env, t, size, n - 1);
      FullWindow(env, After(env, t, size, n - 1).table, size);
      FailuresStay(env, After(env, t, size, n - 1).table, size);
    }
  }

  lemma {:induction false} RunsDown(env: Env, t: seq<Slot>, size: nat, n: nat)
    requires FailuresFirst(env, t) < size
    ensures var p := After(env, t, size, n);
            p.ended || (FailuresFirst(env, p.table) == FailuresFirst(env, t)
              && GoodFirst(env, p.table) + n <= GoodFirst(env, t))
    decreases n
  {
    if n > 0 {
      RunsDown(env, t, size, n - 1);
      var p := After(env, t, size, n - 1);
      if !p.ended && !Short(env, p.table, size) {
        FullBatchWrites(env, p.table, size);
        FailuresStay(env, p.table, size);
      }
    }
  }

  /** For every table the loop ends if and only if fewer than `size` failing rows
      are selected ahead of the first blank one. */
  lemma {:induction false} EndsIff(env: Env, t: seq<Slot>, size: nat)
    requires size > 0
    ensures (exists n: nat :: After(env, t, size, n).ended) <==> FailuresFirst(env, t) < size
  {
    if FailuresFirst(env, t) < size {
      var n := GoodFirst(env, t) + 1;
      RunsDown(env, t, size, n);
      assert After(env, t, size, n).ended;
    } else {
      forall n: nat ensures !After(env, t, size, n).ended { NeverShort(env, t, size, n); }
    }
  }

  // ----- how far a run comes -----

  /** Selected but left as they are: the rows among the first `x` pending ones
      that a batch cannot write. */
  function Stuck(env: Env, t: seq<Slot>, x: nat): (n: nat)
    ensures n <= x
  {
    if |t| == 0 || x == 0 then 0
    else if Pending(env, t[0].row) then (if Good(env, t[0]) then 0 else 1) + Stuck(env, t[1..], x - 1)
    else Stuck(env, t[1..], x)
  }

  /** The pending rows ahead of the first blank one, or all of them. */
  function Limit(env: Env, t: seq<Slot>): nat {
    if |t| == 0 then 0
    else if !Pending(env, t[0].row) then Limit(env, t[1..])
    else if Blank(t[0].row) then 0
    else 1 + Limit(env, t[1..])
  }

  /** Once the first `x` pending rows have been handled, the next batch selects
      the stuck ones again and moves on by what is left of its size. */
  function Reach(env: Env, t: seq<Slot>, x: nat, size: nat): (y: nat)
    ensures y >= x
  {
    if Stuck(env, t, x) < size then x + size - Stuck(env, t, x) else x
  }

  /** How many pending rows `n` batches have handled; the loop stops at the first
      batch that passes a blank row or the end. */
  function Front(env: Env, t: seq<Slot>, size: nat, n: nat): nat {
    if n == 0 then 0
    else
      var x := Front(env, t, size, n - 1);
      if x > Limit(env, t) then x else Reach(env, t, x, size)
  }

  /** How many pending rows are selected before row `i`. */
  function Rank(env: Env, t: seq<Slot>, i: nat): nat
    requires i <= |t|
  {
    PendingCount(env, t[..i])
  }

  lemma BatchHead(env: Env, t: seq<Slot>, x: nat)
    requires |t| > 0 && x > 0
    ensures var q := if Pending(env, t[0].row) then x - 1 else x;
            && Batch(env, t, x)[0] == (if Pending(env, t[0].row) then Written(env, t[0]) else t[0])
            && Batch(env, t, x)[1..] == Batch(env, t[1..], q)
  {
  }

  lemma WrittenIsDone(env: Env, s: Slot)
    ensures Good(env, s) ==> !Pending(env, Written(env, s).row)
    ensures !Good(env, s) ==> Written(env, s) == s
    ensures Good(env, s) && Pending(env, s.row) ==> Written(env, s) != s
  {
  }

  lemma SameHeadAndTail(a: seq<Slot>, b: seq<Slot>)
    requires |a| == |b| > 0 && a[0] == b[0] && a[1..] == b[1..]
    ensures a == b
  {
    assert a == [a[0]] + a[1..] && b == [b[0]] + b[1..];
  }

  /** A batch after the first `x` pending rows is the batch of the first
      `Reach(x)` pending rows. */
  lemma {:induction false} BatchAfterBatch(env: Env, t: seq<Slot>, x: nat, size: nat)
    ensures Batch(env, Batch(env, t, x), size) == Batch(env, t, Reach(env, t, x, size))
    decreases |t|
  {
    if |t| > 0 && x > 0 && size > 0 {
      BatchHead(env, t, x);
      BatchHead(env, Batch(env, t, x), size);
      BatchHead(env, t, Reach(env, t, x, size));
      WrittenIsDone(env, t[0]);
      if !Pending(env, t[0].row) {
        BatchAfterBatch(env, t[1..], x, size);
      } else if Good(env, t[0]) {
        BatchAfterBatch(env, t[1..], x - 1, size);
      } else {
        BatchAfterBatch(env, t[1..], x - 1, size - 1);
      }
      assert Batch(env, Batch(env, t, x), size)[0] == Batch(env, t, Reach(env, t, x, size))[0];
      assert Batch(env, Batch(env, t, x), size)[1..] == Batch(env, t, Reach(env, t, x, size))[1..];
      SameHeadAndTail(Batch(env, Batch(env, t, x), size), Batch(env, t, Reach(env, t, x, size)));
    }
  }

  lemma {:induction false} FirstShortIff(env: Env, t: seq<Slot>, size: nat)
    ensures Counted(env, t, size) < size <==> size > Limit(env, t)
    decreases |t|
  {
    if |t| > 0 && size > 0 {
      FirstShortIff(env, t[1..], if Pending(env, t[0].row) then size - 1 else size);
    }
  }

  /** A batch is short exactly when it passes the first blank row or the end. */
  lemma {:induction false} ShortIff(env: Env, t: seq<Slot>, x: nat, size: nat)
    requires x <= Limit(env, t)
    ensures Counted(env, Batch(env, t, x), size) < size <==> Reach(env, t, x, size) > Limit(env, t)
    decreases |t|
  {
    if |t| == 0 || x == 0 {
      FirstShortIff(env, t, size);
    } else if size > 0 {
      BatchHead(env, t, x);
      WrittenIsDone(env, t[0]);
      if !Pending(env, t[0].row) {
        ShortIff(env, t[1..], x, size);
      } else if Good(env, t[0]) {
        ShortIff(env, t[1..], x - 1, size);
      } else {
        ShortIff(env, t[1..], x - 1, size - 1);
      }
    }
  }

  /** Where every run stands after `n` batches: it has handled the first
      `Front(n)` pending rows and no other, and has ended exactly when those pass
      the first blank row or the end. */
  lemma {:induction false} RunIsFront(env: Env, t: seq<Slot>, size: nat, n: nat)
    ensures After(env, t, size, n) == Progress(Batch(env, t, Front(env, t, size, n)),
              Front(env, t, size, n) > Limit(env, t))
    decreases n
  {
    if n > 0 {
      RunIsFront(env, t, size, n - 1);
      var x := Front(env, t, size, n - 1);
      if x <= Limit(env, t) {
        BatchAfterBatch(env, t, x, size);
        ShortIff(env, t, x, size);
      }
    }
  }

  lemma {:induction false} BatchAt(env: Env, t: seq<Slot>, x: nat, i: nat)
    requires i < |t|
    ensures Batch(env, t, x)[i] == if Pending(env, t[i].row) && Rank(env, t, i) < x then Written(env, t[i]) else t[i]
    decreases |t|
  {
    if x > 0 {
      BatchHead(env, t, x);
      if i > 0 {
        assert t[..i][1..] == t[1..][..i - 1] && t[..i][0] == t[0];
        BatchAt(env, t[1..], if Pending(env, t[0].row) then x - 1 else x, i - 1);
        assert Batch(env, t, x)[i] == Batch(env, t, x)[1..][i - 1];
      }
    }
  }

  /** Every row that can be written comes before place `x` of the selection. */
  ghost predicate GoodBefore(env: Env, t: seq<Slot>, x: nat) {
    forall i :: 0 <= i < |t| && Pending(env, t[i].row) && Good(env, t[i]) ==> Rank(env, t, i) < x
  }

  lemma {:induction false} BatchWritesAllIff(env: Env, t: seq<Slot>, x: nat)
    ensures Batch(env, t, x) == AllWritten(env, t) <==> GoodBefore(env, t, x)
  {
    forall i | 0 <= i < |t|
      ensures Batch(env, t, x)[i] == AllWritten(env, t)[i]
              <==> (Pending(env, t[i].row) && Good(env, t[i]) ==> Rank(env, t, i) < x)
    {
      BatchAt(env, t, x, i);
      WrittenIsDone(env, t[i]);
    }
  }

  /** For every table and batch size: an ended run has written every row it can
      exactly when all those rows come before the place where it stopped, the
      first front that passes a blank row or the end. */
  lemma {:induction false} EndWritesAllIff(env: Env, t: seq<Slot>, size: nat, n: nat)
    requires After(env, t, size, n).ended
    ensures Front(env, t, size, n) > Limit(env, t)
    ensures IsComplete(env, t, After(env, t, size, n).table) <==> GoodBefore(env, t, Front(env, t, size, n))
  {
    RunIsFront(env, t, size, n);
    BatchWritesAllIff(env, t, Front(env, t, size, n));
    AllWrittenIsComplete(env, t, After(env, t, size, n).table);
  }

  /** No pending row fails to embed or to be written; some may be blank. */
  ghost predicate OnlyBlanksStuck(env: Env, t: seq<Slot>) {
    forall i :: 0 <= i < |t| && Pending(env, t[i].row) ==> Blank(t[i].row) || Good(env, t[i])
  }

  lemma {:induction false} NothingStuck(env: Env, t: seq<Slot>, x: nat)
    requires OnlyBlanksStuck(env, t) && x <= Limit(env, t)
    ensures Stuck(env, t, x) == 0
    decreases |t|
  {
    if |t| > 0 && x > 0 {
      assert OnlyBlanksStuck(env, t[1..]) by {
        forall i | 0 <= i < |t[1..]| && Pending(env, t[1..][i].row)
          ensures Blank(t[1..][i].row) || Good(env, t[1..][i])
        {
          assert t[1..][i] == t[i + 1];
        }
      }
      NothingStuck(env, t[1..], if Pending(env, t[0].row) then x - 1 else x);
    }
  }

  lemma Multiples(a: nat, b: nat, size: nat)
    requires a <= b
    ensures a * size <= b * size && (a + 1) * size == a * size + size
  {
  }

  lemma WholeBatches(k: nat, limit: nat, size: nat)
    requires size > 0 && k <= limit / size
    ensures k * size <= limit && (k + 1) * size == k * size + size
  {
    FullBatches(limit, size);
    Multiples(k, limit / size, size);
  }

  lemma {:induction false} FrontStep(env: Env, t: seq<Slot>, size: nat, n: nat, x: nat)
    requires OnlyBlanksStuck(env, t) && size > 0 && n > 0 && Front(env, t, size, n - 1) == x <= Limit(env, t)
    ensures Front(env, t, size, n) == x + size
  {
    NothingStuck(env, t, x);
  }

  lemma {:induction false} FrontByBatches(env: Env, t: seq<Slot>, size: nat, n: nat)
    requires OnlyBlanksStuck(env, t) && size > 0 && n <= Limit(env, t) / size + 1
    ensures Front(env, t, size, n) == n * size
    decreases n
  {
    if n > 0 {
      FrontByBatches(env, t, size, n - 1);
      WholeBatches(n - 1, Limit(env, t), size);
      FrontStep(env, t, size, n, (n - 1) * size);
    }
  }

  lemma {:induction false} StopsAt(env: Env, t: seq<Slot>, size: nat, n: nat, front: nat)
    requires n > 0 && Front(env, t, size, n - 1) <= Limit(env, t) < front == Front(env, t, size, n)
    ensures After(env, t, size, n).ended && !After(env, t, size, n - 1).ended
    ensures After(env, t, size, n).table == Batch(env, t, front)
  {
    RunIsFront(env, t, size, n - 1);
    RunIsFront(env, t, size, n);
  }

  lemma {:induction false} BlankFronts(env: Env, t: seq<Slot>, size: nat) returns (n: nat, last: nat)
    requires OnlyBlanksStuck(env, t) && size > 0
    ensures n == Batches(Limit(env, t), size) && last == n * size
    ensures Front(env, t, size, n - 1) <= Limit(env, t) < last == Front(env, t, size, n)
  {
    n := Batches(Limit(env, t), size);
    last := n * size;
    FullBatches(Limit(env, t), size);
    Multiples(n - 1, n - 1, size);
    FrontByBatches(env, t, size, n - 1);
    FrontByBatches(env, t, size, n);
  }

  /** When only blank rows are in the way, the loop ends after exactly
      floor(limit / size) + 1 batches, `limit` being the pending rows ahead of the
      first blank one, and it has written every row it can exactly when none of
      those rows is selected after that many batches. */
  lemma {:induction false} BlankRunEnds(env: Env, t: seq<Slot>, size: nat) returns (n: nat, last: nat)
    requires OnlyBlanksStuck(env, t) && size > 0
    ensures n == Batches(Limit(env, t), size) && last == n * size
    ensures After(env, t, size, n).ended && !After(env, t, size, n - 1).ended
    ensures IsComplete(env, t, After(env, t, size, n).table) <==> GoodBefore(env, t, last)
  {
    n, last := BlankFronts(env, t, size);
    StopsAt(env, t, size, n, last);
    BatchWritesAllIff(env, t, last);
    AllWrittenIsComplete(env, t, After(env, t, size, n).table);
  }

  ghost predicate NoBlankPending(env: Env, t: seq<Slot>) {
    forall i :: 0 <= i < |t| ==> !(Pending(env, t[i].row) && Blank(t[i].row))
  }

  lemma {:induction false} LimitWithoutBlanks(env: Env, t: seq<Slot>)
    requires NoBlankPending(env, t)
    ensures Limit(env, t) == PendingCount(env, t)
    decreases |t|
  {
    if |t| > 0 {
      assert !(Pending(env, t[0].row) && Blank(t[0].row));
      assert NoBlankPending(env, t[1..]) by {
        forall i | 0 <= i < |t[1..]| ensures !(Pending(env, t[1..][i].row) && Blank(t[1..][i].row)) {
          assert t[1..][i] == t[i + 1];
        }
      }
      LimitWithoutBlanks(env, t[1..]);
    }
  }

  lemma {:induction false} RankIsBelowCount(env: Env, t: seq<Slot>, i: nat)
    requires i <= |t|
    ensures Rank(env, t, i) <= PendingCount(env, t)
    decreases |t|
  {
    if i > 0 {
      assert t[..i][1..] == t[1..][..i - 1] && t[..i][0] == t[0];
      RankIsBelowCount(env, t[1..], i - 1);
    }
  }

  /** Without blank rows, whenever the loop ends it has written every row that
      can be written; failing rows are left alone. */
  lemma {:induction false} EndWithoutBlanks(env: Env, t: seq<Slot>, size: nat, n: nat)
    requires NoBlankPending(env, t) && After(env, t, size, n).ended
    ensures IsComplete(env, t, After(env, t, size, n).table)
  {
    EndWritesAllIff(env, t, size, n);
    LimitWithoutBlanks(env, t);
    forall i | 0 <= i < |t| && Pending(env, t[i].row) && Good(env, t[i])
      ensures Rank(env, t, i) < Front(env, t, size, n)
    {
      RankIsBelowCount(env, t, i);
    }
  }

  lemma {:induction false} AllPending(env: Env, t: seq<Slot>)
    requires forall j :: 0 <= j < |t| ==> Pending(env, t[j].row)
    ensures PendingCount(env, t) == |t|
    decreases |t|
  {
    if |t| > 0 { AllPending(env, t[1..]); }
  }

  lemma {:induction false} RankBehindBlank(env: Env, blank: Slot, goods: seq<Slot>, i: nat)
    requires Pending(env, blank.row) && i <= |goods|
    requires forall j :: 0 <= j < |goods| ==> Pending(env, goods[j].row)
    ensures Rank(env, [blank] + goods, i + 1) == i + 1
    decreases i
  {
    assert ([blank] + goods)[..i + 1] == [blank] + goods[..i];
    assert ([blank] + goods[..i])[1..] == goods[..i];
    AllPending(env, goods[..i]);
  }

  /** A blank row is selected but not counted: one blank row in front of a batch
      of good ones ends the run with the last good row left as it was. */
  lemma {:induction false} BlankRowEndsEarly(env: Env, blank: Slot, goods: seq<Slot>)
    requires Pending(env, blank.row) && Blank(blank.row) && |goods| > 0
    requires forall j :: 0 <= j < |goods| ==> Pending(env, goods[j].row) && Good(env, goods[j])
    ensures var t, size := [blank] + goods, |goods|;
            var p := After(env, t, size, 1);
            p.ended && |p.table| == |t| && p.table[size] == t[size] && !IsComplete(env, t, p.table)
  {
    var t, size := [blank] + goods, |goods|;
    assert Limit(env, t) == 0 && Front(env, t, size, 0) == 0;
    StopsAt(env, t, size, 1, size);
    RankBehindBlank(env, blank, goods, size - 1);
    BatchAt(env, t, size, size);
    WrittenIsDone(env, goods[size - 1]);
    WrittenColumns(env, goods[size - 1]);
    assert t[size] == goods[size - 1];
  }
}
