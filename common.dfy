/** Small value types and sequence helpers shared by every module of the model. */
module Common {

  /** Python's `None` or a present value. */
  datatype Option<T> = None | Some(value: T) {
    /** `d.get(k, default)` style access. */
    function GetOr(default: T): T {
      if Some? then value else default
    }
  }

  /** What a Python call does: it returns a value or raises. */
  datatype Outcome<T> = Returned(value: T) | Raised

  function Min(a: int, b: int): int {
    if a <= b then a else b
  }

  /** Concatenation of a sequence of sequences; defined from the last element,
      the way a loop that appends one chunk at a time builds it. */
  function Flatten<T>(ss: seq<seq<T>>): seq<T> {
    if ss == [] then [] else Flatten(ss[..|ss| - 1]) + ss[|ss| - 1]
  }

  lemma FlattenAppend<T>(ss: seq<seq<T>>, t: seq<T>)
    ensures Flatten(ss + [t]) == Flatten(ss) + t
  {
    assert (ss + [t])[..|ss|] == ss;
  }

  lemma {:induction false} FlattenConcat<T>(a: seq<seq<T>>, b: seq<seq<T>>)
    ensures Flatten(a + b) == Flatten(a) + Flatten(b)
    decreases |b|
  {
    if b == [] {
      assert a + b == a;
    } else {
      var last := b[|b| - 1];
      var init := b[..|b| - 1];
      assert a + b == (a + init) + [last];
      assert b == init + [last];
      FlattenAppend(a + init, last);
      FlattenConcat(a, init);
      FlattenAppend(init, last);
    }
  }

  lemma FlattenCons<T>(s: seq<T>, ss: seq<seq<T>>)
    ensures Flatten([s] + ss) == s + Flatten(ss)
  {
    FlattenConcat([s], ss);
    FlattenAppend([], s);
    assert [] + [s] == [s];
  }

  /** The slices that `for i in range(0, len(s), n): s[i:i + n]` visits, in order. */
  function Chunks<T>(s: seq<T>, n: nat): seq<seq<T>>
    requires n > 0
    decreases |s|
  {
    if s == [] then [] else [s[..Min(n, |s|)]] + Chunks(s[Min(n, |s|)..], n)
  }

  /** Batching loses nothing and reorders nothing: the slices concatenate back to the input. */
  lemma {:induction false} ChunksConcat<T>(s: seq<T>, n: nat)
    requires n > 0
    ensures Flatten(Chunks(s, n)) == s
    decreases |s|
  {
    if s != [] {
      var m := Min(n, |s|);
      ChunksConcat(s[m..], n);
      FlattenCons(s[..m], Chunks(s[m..], n));
      assert s[..m] + s[m..] == s;
    }
  }

  /** Every slice is non-empty and at most `n` long. */
  lemma {:induction false} ChunksBounded<T>(s: seq<T>, n: nat)
    requires n > 0
    ensures forall k :: 0 <= k < |Chunks(s, n)| ==> 0 < |Chunks(s, n)[k]| <= n
    decreases |s|
  {
    if s != [] {
      var m := Min(n, |s|);
      ChunksBounded(s[m..], n);
      var c := Chunks(s, n);
      forall k | 0 <= k < |c| ensures 0 < |c[k]| <= n {
        if k > 0 { assert c[k] == Chunks(s[m..], n)[k - 1]; }
      }
    }
  }

  /** There are exactly ceil(|s| / n) slices. */
  lemma {:induction false} ChunksCount<T>(s: seq<T>, n: nat)
    requires n > 0
    ensures |s| <= |Chunks(s, n)| * n
    ensures |Chunks(s, n)| == 0 || (|Chunks(s, n)| - 1) * n < |s|
    decreases |s|
  {
    if s != [] {
      var m := Min(n, |s|);
      ChunksCount(s[m..], n);
      var c := |Chunks(s[m..], n)|;
      assert |Chunks(s, n)| == c + 1;
      assert (c + 1) * n == c * n + n;
    }
  }

  /** Every element of every slice is an element of the input. */
  lemma {:induction false} ChunkElement<T>(s: seq<T>, n: nat, k: nat, j: nat)
    requires n > 0
    requires k < |Chunks(s, n)| && j < |Chunks(s, n)[k]|
    ensures Chunks(s, n)[k][j] in s
    decreases |s|
  {
    var m := Min(n, |s|);
    if k > 0 {
      ChunkElement(s[m..], n, k - 1, j);
      assert Chunks(s, n)[k] == Chunks(s[m..], n)[k - 1];
    }
  }

  /** The elements of a sequence. */
  function Elems<T>(s: seq<T>): set<T> {
    set x | x in s
  }

  lemma ElemsConcat<T>(a: seq<T>, b: seq<T>)
    ensures Elems(a + b) == Elems(a) + Elems(b)
  {
  }

  /** No element occurs twice. */
  predicate NoDuplicates<T(==)>(s: seq<T>) {
    forall i, j :: 0 <= i < j < |s| ==> s[i] != s[j]
  }

  /** `s` lists the elements of the set `e`, each once (what `list(e)` gives, in some order). */
  predicate Enumerates<T(==)>(s: seq<T>, e: set<T>) {
    NoDuplicates(s) && Elems(s) == e
  }
}
