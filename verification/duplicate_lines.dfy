/** Retry-storm duplicates inserted into a list of lines from the back to the front. */
module DuplicateLines {
  import opened Sequences

  /** A duplicate line and the index it was drawn for. */
  datatype Insertion<T> = Insertion(at: nat, line: T)

  /** The duplicates bound for position `p`, the last inserted first. */
  function Block<T>(ins: seq<Insertion<T>>, p: nat): seq<T> {
    if |ins| == 0 then []
    else (if Last(ins).at == p then [Last(ins).line] else []) + Block(Init(ins), p)
  }

  /** The first `p` lines, each preceded by its block, and the block before line `p`. */
  function Woven<T>(lines: seq<T>, ins: seq<Insertion<T>>, p: nat): seq<T>
    requires p <= |lines|
  {
    if p == 0 then Block(ins, 0)
    else Woven(lines, ins, p - 1) + [lines[p - 1]] + Block(ins, p)
  }

  ghost predicate BackToFront<T>(ins: seq<Insertion<T>>) {
    forall i, j :: 0 <= i < j < |ins| ==> ins[j].at <= ins[i].at
  }

  /** The insertions in the order they are made: insert_at[k], dupe_lines[k] for k in order. */
  ghost function Scheduled<T>(insertAt: seq<nat>, dupes: seq<T>, order: seq<nat>): seq<Insertion<T>>
    requires |insertAt| == |dupes| && Indexes(order, |dupes|)
  {
    seq(|order|, i requires 0 <= i < |order| => Insertion(insertAt[order[i]], dupes[order[i]]))
  }

  lemma {:induction false} BlockEmpty<T>(ins: seq<Insertion<T>>, p: nat)
    requires forall x :: x in ins ==> x.at != p
    ensures Block(ins, p) == []
  {
    if |ins| > 0 {
      InitLast(ins);
      BlockEmpty(Init(ins), p);
    }
  }

  /** Before any insertion point the woven text is the lines themselves. */
  lemma {:induction false} WovenPlain<T>(lines: seq<T>, ins: seq<Insertion<T>>, p: nat)
    requires p <= |lines|
    requires forall x :: x in ins ==> x.at > p
    ensures Woven(lines, ins, p) == lines[..p]
  {
    BlockEmpty(ins, p);
    if p > 0 {
      WovenPlain(lines, ins, p - 1);
    }
  }

  lemma BlockNext<T>(ins: seq<Insertion<T>>, x: Insertion<T>, p: nat)
    ensures Block(ins + [x], p) == if x.at == p then [x.line] + Block(ins, p) else Block(ins, p)
  {
    InitAppend(ins, x);
    assert [] + Block(ins, p) == Block(ins, p);
  }

  lemma Assoc<T>(a: seq<T>, b: seq<T>, c: seq<T>)
    ensures a + (b + c) == a + b + c
  {
  }

  /** list.insert(at, x) */
  function Splice<T>(xs: seq<T>, at: nat, x: T): seq<T>
    requires at <= |xs|
  {
    xs[..at] + [x] + xs[at..]
  }

  lemma SpliceAppend<T>(xs: seq<T>, at: nat, x: T, tail: seq<T>)
    requires at <= |xs|
    ensures Splice(xs + tail, at, x) == Splice(xs, at, x) + tail
  {
  }

  lemma SpliceAt<T>(a: seq<T>, b: seq<T>, x: T)
    ensures Splice(a + b, |a|, x) == a + ([x] + b)
  {
  }

  /** An insertion at or before all earlier ones is an insertion into the woven text. */
  lemma {:induction false} WovenInsert<T>(lines: seq<T>, ins: seq<Insertion<T>>, x: Insertion<T>, p: nat)
    requires p <= |lines|
    requires forall y :: y in ins ==> x.at <= y.at
    ensures p < x.at ==> Woven(lines, ins + [x], p) == Woven(lines, ins, p)
    ensures p >= x.at ==> x.at <= |Woven(lines, ins, p)|
                          && Woven(lines, ins + [x], p) == Splice(Woven(lines, ins, p), x.at, x.line)
  {
    hide Splice, Woven, Block;
    BlockNext(ins, x, p);
    if p > 0 {
      WovenInsert(lines, ins, x, p - 1);
      WovenStep(lines, ins, p);
      WovenStep(lines, ins + [x], p);
    } else {
      WovenStart(lines, ins);
      WovenStart(lines, ins + [x]);
    }
    if p == x.at {
      InsertHere(lines, ins, x);
    } else if p > x.at {
      SpliceAppend(Woven(lines, ins, p - 1), x.at, x.line, [lines[p - 1]] + Block(ins, p));
    }
  }

  lemma WovenStep<T>(lines: seq<T>, ins: seq<Insertion<T>>, p: nat)
    requires 0 < p <= |lines|
    ensures Woven(lines, ins, p) == Woven(lines, ins, p - 1) + ([lines[p - 1]] + Block(ins, p))
  {
  }

  lemma InsertHere<T>(lines: seq<T>, ins: seq<Insertion<T>>, x: Insertion<T>)
    requires x.at <= |lines|
    requires forall y :: y in ins ==> x.at <= y.at
    requires x.at > 0 ==> Woven(lines, ins + [x], x.at - 1) == Woven(lines, ins, x.at - 1)
    ensures x.at <= |Woven(lines, ins, x.at)|
    ensures Woven(lines, ins + [x], x.at) == Splice(Woven(lines, ins, x.at), x.at, x.line)
  {
    hide Splice, Woven, Block;
    var p, block := x.at, Block(ins, x.at);
    BlockNext(ins, x, p);
    SpliceAt(lines[..p], block, x.line);
    if p > 0 {
      WovenPlain(lines, ins, p - 1);
      WovenStep(lines, ins, p);
      WovenStep(lines, ins + [x], p);
      assert lines[..p] == lines[..p - 1] + [lines[p - 1]];
      Assoc(lines[..p - 1], [lines[p - 1]], block);
      Assoc(lines[..p - 1], [lines[p - 1]], [x.line] + block);
    } else {
      WovenStart(lines, ins);
      WovenStart(lines, ins + [x]);
      assert lines[..p] == [];
      assert [] + block == block && [] + ([x.line] + block) == [x.line] + block;
    }
  }

  lemma {:induction false} WovenNothing<T>(lines: seq<T>, p: nat)
    requires p <= |lines|
    ensures Woven(lines, [], p) == lines[..p]
  {
    if p > 0 {
      WovenNothing(lines, p - 1);
    }
  }

  /** `for k in order: lines.insert(insert_at[k], dupe_lines[k])`, with `order`
      any ordering of the indices by descending position. */
  method InsertDuplicates<T>(original: seq<T>, insertAt: seq<nat>, dupes: seq<T>, order: seq<nat>) returns (lines: seq<T>)
    requires |insertAt| == |dupes| && IsPermutation(order, |dupes|)
    requires forall i :: 0 <= i < |insertAt| ==> insertAt[i] <= |original|
    requires BackToFront(Scheduled(insertAt, dupes, order))
    ensures lines == Woven(original, Scheduled(insertAt, dupes, order), |original|)
  {
    hide Woven;
    ghost var ins := Scheduled(insertAt, dupes, order);
    lines := original;
    WovenNothing(original, |original|);
    for i := 0 to |order|
      invariant lines == Woven(original, ins[..i], |original|)
    {
      var k := order[i];
      assert ins[..i + 1] == ins[..i] + [ins[i]];
      assert ins[i] == Insertion(insertAt[k], dupes[k]);
      WovenInsert(original, ins[..i], ins[i], |original|);
      lines := Splice(lines, insertAt[k], dupes[k]);
    }
    assert ins[..|order|] == ins;
  }

  // ----- What the woven text is

  /** `xs` is an in-order subsequence of `ys`. */
  ghost predicate Subsequence<T>(xs: seq<T>, ys: seq<T>) {
    if |xs| == 0 then true
    else if |ys| == 0 then false
    else (Last(xs) == Last(ys) && Subsequence(Init(xs), Init(ys))) || Subsequence(xs, Init(ys))
  }

  lemma {:induction false} SubsequenceAppend<T>(xs: seq<T>, ys: seq<T>, more: seq<T>)
    requires Subsequence(xs, ys)
    ensures Subsequence(xs, ys + more)
  {
    if |more| == 0 {
      assert ys + more == ys;
    } else {
      SubsequenceAppend(xs, ys, Init(more));
      assert Init(ys + more) == ys + Init(more);
    }
  }

  lemma {:induction false} WovenKeepsLines<T>(lines: seq<T>, ins: seq<Insertion<T>>, p: nat)
    requires p <= |lines|
    ensures Subsequence(lines[..p], Woven(lines, ins, p))
  {
    if p > 0 {
      WovenKeepsLines(lines, ins, p - 1);
      var w, x := Woven(lines, ins, p - 1), lines[p - 1];
      assert lines[..p] == lines[..p - 1] + [x];
      InitAppend(lines[..p - 1], x);
      InitAppend(w, x);
      assert Subsequence(lines[..p], w + [x]);
      SubsequenceAppend(lines[..p], w + [x], Block(ins, p));
    }
  }

  function LineOf<T>(x: Insertion<T>): T { x.line }

  lemma WovenStepContents<T>(lines: seq<T>, ins: seq<Insertion<T>>, p: nat)
    requires 0 < p <= |lines|
    ensures multiset(Woven(lines, ins, p))
         == multiset(Woven(lines, ins, p - 1)) + multiset{lines[p - 1]} + multiset(Block(ins, p))
  {
  }

  lemma BlockNextContents<T>(ins: seq<Insertion<T>>, x: Insertion<T>, p: nat)
    ensures multiset(Block(ins + [x], p)) == multiset(Block(ins, p)) + if x.at == p then multiset{x.line} else multiset{}
  {
    BlockNext(ins, x, p);
  }

  /** One insertion more puts exactly one line more into the text. */
  lemma {:induction false} WovenOneMore<T>(lines: seq<T>, ins: seq<Insertion<T>>, x: Insertion<T>, p: nat)
    requires p <= |lines|
    ensures multiset(Woven(lines, ins + [x], p))
         == multiset(Woven(lines, ins, p)) + if x.at <= p then multiset{x.line} else multiset{}
  {
    hide Woven, Block;
    BlockNextContents(ins, x, p);
    if p > 0 {
      WovenOneMore(lines, ins, x, p - 1);
      WovenStepContents(lines, ins, p);
      WovenStepContents(lines, ins + [x], p);
    } else {
      WovenStart(lines, ins);
      WovenStart(lines, ins + [x]);
    }
  }

  lemma WovenStart<T>(lines: seq<T>, ins: seq<Insertion<T>>)
    ensures Woven(lines, ins, 0) == Block(ins, 0)
  {
  }

  lemma {:induction false} WovenContents<T>(lines: seq<T>, ins: seq<Insertion<T>>)
    requires forall i :: 0 <= i < |ins| ==> ins[i].at <= |lines|
    ensures multiset(Woven(lines, ins, |lines|)) == multiset(lines) + multiset(Map(ins, LineOf))
  {
    hide Woven;
    if |ins| == 0 {
      WovenNothing(lines, |lines|);
      assert lines[..|lines|] == lines;
    } else {
      WovenContents(lines, Init(ins));
      InitLast(ins);
      WovenOneMore(lines, Init(ins), Last(ins), |lines|);
      MapAppend(Init(ins), Last(ins), LineOf);
    }
  }

  /** The original lines stay in order, and the text is exactly them plus the
      duplicates, however the ties were ordered. */
  lemma InsertionKeepsAndAdds<T>(lines: seq<T>, insertAt: seq<nat>, dupes: seq<T>, order: seq<nat>)
    requires |insertAt| == |dupes| && IsPermutation(order, |dupes|)
    requires forall i :: 0 <= i < |insertAt| ==> insertAt[i] <= |lines|
    ensures var text := Woven(lines, Scheduled(insertAt, dupes, order), |lines|);
            Subsequence(lines, text) && multiset(text) == multiset(lines) + multiset(dupes)
  {
    hide Woven, Subsequence;
    var ins := Scheduled(insertAt, dupes, order);
    assert lines[..|lines|] == lines;
    WovenKeepsLines(lines, ins, |lines|);
    WovenContents(lines, ins);
    assert Map(ins, LineOf) == Gather(dupes, order);
    GatherContents(dupes, order);
  }

  /** A tie can be ordered either way: only the order inside each block depends on it. */
  lemma {:induction false} BlockContents<T>(ins: seq<Insertion<T>>, p: nat)
    ensures multiset(Block(ins, p)) == multiset(Map(Filter(ins, (x: Insertion<T>) => x.at == p), LineOf))
  {
    if |ins| > 0 {
      var at := (x: Insertion<T>) => x.at == p;
      BlockContents(Init(ins), p);
      MapAppend(Filter(Init(ins), at), Last(ins), LineOf);
      assert Filter(Init(ins), at) + [] == Filter(Init(ins), at);
    }
  }
}
