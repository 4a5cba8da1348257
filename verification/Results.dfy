/** Optional values and results that carry an error. */
module Results {
  datatype Option<+T> = None | Some(value: T)

  datatype Result<+T, +E> = Ok(value: T) | Err(error: E)
}

module Sequences {
  ghost predicate NoRepeats<T>(s: seq<T>) {
    forall i, j :: 0 <= i < j < |s| ==> s[i] != s[j]
  }

  lemma {:induction false} NoRepeatsSize<T>(s: seq<T>)
    requires NoRepeats(s)
    ensures |set x | x in s| == |s|
  {
    if s == [] {
      assert (set x | x in s) == {};
    } else {
      NoRepeatsSize(s[1..]);
      assert (set x | x in s) == {s[0]} + (set x | x in s[1..]);
    }
  }

  /** The parts one after another. */
  function Flat<X>(parts: seq<seq<X>>): seq<X> {
    if parts == [] then [] else Flat(parts[..|parts| - 1]) + parts[|parts| - 1]
  }

  lemma {:induction false} FlatAt<X>(parts: seq<seq<X>>, i: nat)
    requires i < |parts|
    ensures var off := |Flat(parts[..i])|;
      && |Flat(parts[..i + 1])| == off + |parts[i]| <= |Flat(parts)|
      && Flat(parts)[off..off + |parts[i]|] == parts[i]
  {
    var init, last := parts[..|parts| - 1], parts[|parts| - 1];
    assert parts[..i + 1][..i] == parts[..i];
    if i == |parts| - 1 {
      assert parts[..i + 1] == parts && parts[..i] == init;
    } else {
      FlatAt(init, i);
      assert init[..i] == parts[..i] && init[..i + 1] == parts[..i + 1];
    }
  }
}

module Numbers {
  function Max(a: nat, b: nat): nat {
    if a < b then b else a
  }
}
