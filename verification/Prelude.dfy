/** Shared vocabulary: optional values, verdicts, identifiers and instants. */
module Prelude {

  datatype Option<+T> = None | Some(value: T)

  datatype Result<+T, +E> = Ok(value: T) | Err(error: E)

  /** One past the largest 128-bit identifier. PostgreSQL and Rust both order
      UUIDs by their big-endian bytes, which is the order of the numbers. */
  const UUID_BOUND: nat := 0x1_0000_0000_0000_0000_0000_0000_0000_0000

  newtype Uuid = n: int | 0 <= n < UUID_BOUND

  /** An instant, counted in microseconds as PostgreSQL stores it. */
  type Time = int

  predicate Distinct<T(==)>(s: seq<T>) {
    forall i, j :: 0 <= i < j < |s| ==> s[i] != s[j]
  }

  /** The elements of `s` accepted by `keep`, in order. */
  function Filter<T>(s: seq<T>, keep: T -> bool): seq<T> {
    if s == [] then [] else (if keep(s[0]) then [s[0]] else []) + Filter(s[1..], keep)
  }

  lemma {:induction false} FilterElements<T(!new)>(s: seq<T>, keep: T -> bool)
    ensures forall x :: x in Filter(s, keep) <==> x in s && keep(x)
  {
    if s != [] {
      FilterElements(s[1..], keep);
    }
  }

  lemma {:induction false} FilterDistinct<T(!new)>(s: seq<T>, keep: T -> bool)
    requires Distinct(s)
    ensures Distinct(Filter(s, keep))
  {
    if s != [] {
      FilterDistinct(s[1..], keep);
      FilterElements(s[1..], keep);
      var rest := Filter(s[1..], keep);
      forall i | 0 <= i < |rest|
        ensures rest[i] != s[0]
      {
        assert rest[i] in s[1..];
      }
    }
  }

  lemma {:induction false} FilterConcat<T>(a: seq<T>, b: seq<T>, keep: T -> bool)
    ensures Filter(a + b, keep) == Filter(a, keep) + Filter(b, keep)
  {
    if a == [] {
      assert a + b == b;
    } else {
      FilterConcat(a[1..], b, keep);
      HeadAndTail(a, b);
      FilterCons(a[0], a[1..] + b, keep);
      FilterCons(a[0], a[1..], keep);
      Assoc([a[0]], Filter(a[1..], keep), Filter(b, keep));
    }
  }

  lemma FilterCons<T>(x: T, s: seq<T>, keep: T -> bool)
    ensures Filter([x] + s, keep) == if keep(x) then [x] + Filter(s, keep) else Filter(s, keep)
  {
    assert ([x] + s)[1..] == s;
  }

  // ---- Reading lists ------------------------------------------------------------------

  /** What `read` makes of the elements, in order; the rest is skipped. */
  function FilterMap<A, B>(s: seq<A>, read: A -> Option<B>): seq<B> {
    if s == [] then [] else IfAny(read(s[0])) + FilterMap(s[1..], read)
  }

  function IfAny<B>(b: Option<B>): seq<B> {
    if b.Some? then [b.value] else []
  }

  /** What `read` makes of the elements, or nothing if it fails on one. */
  function Collect<A, B>(s: seq<A>, read: A -> Option<B>): (r: Option<seq<B>>)
    ensures r.Some? <==> forall i :: 0 <= i < |s| ==> read(s[i]).Some?
    ensures r.Some? ==> |r.value| == |s| && forall i :: 0 <= i < |s| ==> read(s[i]) == Some(r.value[i])
  {
    if s == [] then Some([]) else
      match read(s[0])
      case None => None
      case Some(b) =>
        match Collect(s[1..], read)
        case None => None
        case Some(rest) => Some([b] + rest)
  }

  lemma FilterMapCons<A, B>(x: A, s: seq<A>, read: A -> Option<B>)
    ensures FilterMap([x] + s, read) == IfAny(read(x)) + FilterMap(s, read)
  {
    assert ([x] + s)[1..] == s;
  }

  lemma Assoc<T>(a: seq<T>, b: seq<T>, c: seq<T>)
    ensures (a + b) + c == a + (b + c)
  {
  }

  lemma HeadAndTail<T>(a: seq<T>, b: seq<T>)
    requires a != []
    ensures [a[0]] + a[1..] == a && [a[0]] + (a[1..] + b) == a + b
  {
  }

  lemma {:induction false} FilterMapConcat<A, B>(a: seq<A>, b: seq<A>, read: A -> Option<B>)
    ensures FilterMap(a + b, read) == FilterMap(a, read) + FilterMap(b, read)
  {
    if a == [] {
      assert a + b == b;
    } else {
      FilterMapConcat(a[1..], b, read);
      HeadAndTail(a, b);
      FilterMapCons(a[0], a[1..] + b, read);
      FilterMapCons(a[0], a[1..], read);
      Assoc(IfAny(read(a[0])), FilterMap(a[1..], read), FilterMap(b, read));
    }
  }

  lemma CollectIs<A, B>(s: seq<A>, read: A -> Option<B>, r: seq<B>)
    requires |r| == |s| && forall i :: 0 <= i < |s| ==> read(s[i]) == Some(r[i])
    ensures Collect(s, read) == Some(r)
  {
    var collected := Collect(s, read);
    assert forall i :: 0 <= i < |s| ==> collected.value[i] == r[i];
    assert collected.value == r;
  }

  /** Where nothing fails, skipping and insisting agree. */
  lemma {:induction false} CollectIsFilterMap<A, B>(s: seq<A>, read: A -> Option<B>)
    requires Collect(s, read).Some?
    ensures FilterMap(s, read) == Collect(s, read).value
  {
    if s != [] {
      CollectIsFilterMap(s[1..], read);
    }
  }
}
