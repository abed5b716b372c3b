/** internal/gps/stat: a ring of the latest events, written downwards, for a ring
  * of any size.  `zero` is the value of an unused slot (time.Time's zero).
  */
module EventRing {

  /** Newest first, and zeros where there is no event yet. */
  function Kept<T>(history: seq<T>, n: nat, zero: T): (r: seq<T>)
    ensures |r| == n
  {
    seq(n, i requires 0 <= i < n => if i < |history| then history[|history| - 1 - i] else zero)
  }

  /** The newest events, newest first, at most n. */
  function Newest<T>(history: seq<T>, n: nat): (r: seq<T>)
    ensures |r| == if |history| < n then |history| else n
  {
    var m := if |history| < n then |history| else n;
    seq(m, i requires 0 <= i < m => history[|history| - 1 - i])
  }

  /** The slots in the order in which they were written, latest first. */
  function Rotation<T>(list: seq<T>, idx: nat): (r: seq<T>)
    requires idx < |list|
    ensures |r| == |list|
  {
    list[idx + 1..] + list[..idx + 1]
  }

  lemma KeptNext<T>(history: seq<T>, t: T, n: nat, zero: T)
    requires n > 0
    ensures Kept(history + [t], n, zero) == [t] + Kept(history, n, zero)[..n - 1]
  {
    var h' := history + [t];
    forall i | 0 < i < n ensures Kept(h', n, zero)[i] == Kept(history, n, zero)[i - 1] {
      assert i < |h'| ==> h'[|h'| - 1 - i] == history[|history| - 1 - (i - 1)];
    }
  }

  lemma RotationNext<T>(list: seq<T>, idx: nat, t: T)
    requires idx < |list|
    ensures Rotation(list[idx := t], if idx == 0 then |list| - 1 else idx - 1)
         == [t] + Rotation(list, idx)[..|list| - 1]
  {
  }

  /** The rotation is the history; what getAsList returns is part of it. */
  lemma ListFromRotation<T>(list: seq<T>, idx: nat, history: seq<T>, zero: T)
    requires idx < |list| && Rotation(list, idx) == Kept(history, |list|, zero)
    requires |history| < |list| ==> idx == |list| - 1 - |history|
    ensures |history| < |list| ==> list[idx] == zero && list[idx + 1..] == Newest(history, |list|)
    ensures |history| >= |list| ==>
      && Rotation(list, idx) == Newest(history, |list|)
      && list[idx] == history[|history| - |list|]
  {
    var n := |list|;
    var r := Rotation(list, idx);
    assert r[n - 1] == list[idx];
    if |history| < n {
      assert list[idx + 1..] == r[..|history|];
    }
  }

  class TimeEvent<T(==)> {
    const list: array<T>
    const zero: T
    var idx: nat
    ghost var history: seq<T>  // oldest first

    ghost predicate Valid()
      reads this, list
    {
      && idx < list.Length
      && Rotation(list[..], idx) == Kept(history, list.Length, zero)
      && (|history| < list.Length ==> idx == list.Length - 1 - |history|)
    }

    constructor (n: nat, zero: T)
      requires n >= 1
      ensures Valid() && history == [] && list.Length == n && this.zero == zero && fresh(list)
    {
      list := new T[n](_ => zero);
      this.zero := zero;
      idx := n - 1;
      history := [];
    }

    method Log(t: T)
      requires Valid()
      modifies this, list
      ensures Valid() && history == old(history) + [t]
    {
      KeptNext(history, t, list.Length, zero);
      RotationNext(list[..], idx, t);
      list[idx] := t;
      if idx == 0 {
        idx := list.Length - 1;
      } else {
        idx := idx - 1;
      }
      history := history + [t];
      assert list[..] == old(list[..])[old(idx) := t];
    }

    /** The newest events, exactly when the ring is not full or the oldest event it
      * still holds is not the zero value; otherwise the tail of the ring is lost. */
    method GetAsList() returns (l: seq<T>)
      requires Valid()
      ensures l == Newest(history, list.Length) <==>
        |history| < list.Length || history[|history| - list.Length] != zero
      ensures l <= Newest(history, list.Length)
    {
      ListFromRotation(list[..], idx, history, zero);
      l := list[idx + 1..];
      assert l == list[..][idx + 1..] == Rotation(list[..], idx)[..list.Length - 1 - idx];
      if list[idx] != zero {
        l := l + list[..idx + 1];
        assert l == Rotation(list[..], idx);
      }
    }

    method GetLastEvent() returns (e: T)
      requires Valid()
      ensures e == if history == [] then zero else history[|history| - 1]
    {
      assert Rotation(list[..], idx)[0] == Kept(history, list.Length, zero)[0];
      if idx == list.Length - 1 {
        e := list[0];
      } else {
        e := list[idx + 1];
      }
    }
  }
}
