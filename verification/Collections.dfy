/** Small general-purpose definitions shared by the kernels. */
module Collections {

  datatype Option<+T> = None | Some(value: T)

  /** The sequence with position i taken out. */
  function Without<T>(s: seq<T>, i: nat): (r: seq<T>)
    requires i < |s|
    ensures |r| == |s| - 1
  {
    s[..i] + s[i + 1..]
  }

  lemma WithoutMembers<T>(s: seq<T>, i: nat)
    requires i < |s|
    ensures multiset(Without(s, i)) == multiset(s) - multiset{s[i]}
    ensures forall x :: x in Without(s, i) ==> x in s
    ensures forall x :: x in s ==> x in Without(s, i) || x == s[i]
  {
    assert s == s[..i] + [s[i]] + s[i + 1..];
  }

  function Reversed<T>(s: seq<T>): (r: seq<T>)
    ensures |r| == |s| && forall i :: 0 <= i < |s| ==> r[i] == s[|s| - 1 - i]
  {
    seq(|s|, i requires 0 <= i < |s| => s[|s| - 1 - i])
  }
}
