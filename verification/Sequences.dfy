/** Cutting and joining sequences. */
module Sequences {
  lemma TakenOneMore<T>(s: seq<T>, n: nat)
    requires n < |s|
    ensures s[..n + 1] == s[..n] + [s[n]]
  {
  }

  lemma Associated<T>(a: seq<T>, b: seq<T>, c: seq<T>)
    ensures a + (b + c) == a + b + c
  {
  }

  lemma InTheMiddle<T>(a: seq<T>, b: seq<T>, c: seq<T>, j: nat)
    requires j < |b|
    ensures |a| + j < |a + b + c| && (a + b + c)[|a| + j] == b[j]
  {
  }

  /** The ends of a sequence and what is between them. */
  lemma Between<T>(first: T, middle: seq<T>, last: T)
    ensures var s := [first] + middle + [last];
            |s| == |middle| + 2 && s[0] == first && s[1..|s| - 1] == middle && s[|s| - 1] == last
    ensures middle == [] ==> [first] + middle + [last] == [first, last]
  {
  }

  lemma CutOut<T>(s: seq<T>, i: nat)
    requires i < |s|
    ensures s == s[..i] + ([s[i]] + s[i + 1..])
  {
  }

  lemma JoinedAgain<T>(before: seq<T>, first: T, middle: seq<T>, last: T)
    ensures before + [first] + middle + [last] == before + ([first] + middle + [last])
  {
  }

  lemma EndsApart<T>(s: seq<T>)
    requires |s| >= 2
    ensures s == [s[0]] + s[1..|s| - 1] + [s[|s| - 1]]
  {
  }
}
