/** Small shared pieces: an Option type and the left shift that the shell
    uses both to delete a job-table entry and to drop a redirection
    operator from the argument vector. */
module Common {

  datatype Option<T> = None | Some(value: T)

  /** The sequence an in-place left shift leaves behind: every position i
      with from <= i < to receives the element at i + 1, every other
      position keeps its element. Position `to` is not cleared, so the
      element there ends up twice. */
  function ShiftedLeft<T>(s: seq<T>, from: nat, to: nat): (r: seq<T>)
    requires from <= to < |s|
    ensures |r| == |s|
  {
    s[..from] + s[from + 1..to + 1] + s[to..]
  }

  /** Element-wise reading of ShiftedLeft. */
  lemma ShiftedLeftAt<T>(s: seq<T>, from: nat, to: nat, i: nat)
    requires from <= to < |s| && i < |s|
    ensures ShiftedLeft(s, from, to)[i] ==
              if from <= i < to then s[i + 1] else s[i]
  {
    var r := ShiftedLeft(s, from, to);
    if i < from {
      assert r[i] == s[..from][i];
    } else if i < to {
      assert r[i] == s[from + 1..to + 1][i - from];
    } else {
      assert r[i] == s[to..][i - to];
    }
  }

  /** The loop `for (i = from; i < to; i++) a[i] = a[i + 1];` */
  method ShiftLeft<T>(a: array<T>, from: nat, to: nat)
    requires from <= to < a.Length
    modifies a
    ensures a[..] == ShiftedLeft(old(a[..]), from, to)
  {
    ghost var s := a[..];
    var i := from;
    while i < to
      invariant from <= i <= to
      invariant forall k :: from <= k < i ==> a[k] == s[k + 1]
      invariant forall k :: 0 <= k < a.Length && !(from <= k < i) ==> a[k] == s[k]
    {
      a[i] := a[i + 1];
      i := i + 1;
    }
    forall k | 0 <= k < a.Length
      ensures a[k] == ShiftedLeft(s, from, to)[k]
    {
      ShiftedLeftAt(s, from, to, k);
    }
    assert a[..] == ShiftedLeft(s, from, to);
  }
}
