/** Lists of output lines built by appending one block per item, as the
    report's loops do. */
module Lines {
  /** The lines a `for` loop appends: the blocks of `xs`, in order. */
  function Flatten<T>(xs: seq<T>, block: T -> seq<string>): seq<string> {
    if xs == [] then [] else Flatten(xs[..|xs| - 1], block) + block(xs[|xs| - 1])
  }

  lemma FlattenStep<T>(xs: seq<T>, i: nat, block: T -> seq<string>)
    requires i < |xs|
    ensures Flatten(xs[..i + 1], block) == Flatten(xs[..i], block) + block(xs[i])
  {
    assert xs[..i + 1][..i] == xs[..i];
  }

  /** Flattening distributes over concatenation. */
  lemma {:induction false} FlattenAppend<T>(a: seq<T>, b: seq<T>, block: T -> seq<string>)
    ensures Flatten(a + b, block) == Flatten(a, block) + Flatten(b, block)
  {
    if b == [] {
      assert a + b == a;
    } else {
      var n := |b| - 1;
      assert (a + b)[..|a + b| - 1] == a + b[..n];
      assert (a + b)[|a + b| - 1] == b[n];
      FlattenAppend(a, b[..n], block);
    }
  }

  /** The block of `xs[i]` sits right after the blocks of the items before it. */
  lemma FlattenAt<T>(xs: seq<T>, i: nat, block: T -> seq<string>)
    requires i < |xs|
    ensures Flatten(xs, block) == Flatten(xs[..i], block) + block(xs[i]) + Flatten(xs[i + 1..], block)
  {
    calc {
      Flatten(xs, block);
      { assert xs == xs[..i + 1] + xs[i + 1..]; }
      Flatten(xs[..i + 1] + xs[i + 1..], block);
      { FlattenAppend(xs[..i + 1], xs[i + 1..], block); }
      Flatten(xs[..i + 1], block) + Flatten(xs[i + 1..], block);
      { FlattenStep(xs, i, block); }
      Flatten(xs[..i], block) + block(xs[i]) + Flatten(xs[i + 1..], block);
    }
  }

  /** Five-line blocks give five lines per item. */
  lemma {:induction false} FlattenLength<T>(xs: seq<T>, block: T -> seq<string>)
    requires forall i :: 0 <= i < |xs| ==> |block(xs[i])| == 5
    ensures |Flatten(xs, block)| == 5 * |xs|
  {
    if xs != [] {
      var m := |xs| - 1;
      var init := xs[..m];
      assert forall i :: 0 <= i < m ==> init[i] == xs[i];
      FlattenLength(init, block);
    }
  }

  lemma FlattenOne<T>(x: T, block: T -> seq<string>)
    ensures Flatten([x], block) == block(x)
  {
    assert [x][..0] == [];
  }

  /** One more item's block, appended after the blocks so far. */
  lemma AppendStep<T>(prefix: seq<string>, xs: seq<T>, i: nat, block: T -> seq<string>,
                      before: seq<string>, added: seq<string>)
    requires i < |xs|
    requires before == prefix + Flatten(xs[..i], block)
    requires added == block(xs[i])
    ensures before + added == prefix + Flatten(xs[..i + 1], block)
  {
    FlattenStep(xs, i, block);
  }

  /** Proof plumbing, not a property of the program: `+` on sequences is
      associative. */
  lemma Regroup<T>(a: seq<T>, b: seq<T>, c: seq<T>)
    ensures a + b + c == a + (b + c)
  {
  }
}
