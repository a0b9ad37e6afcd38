/**
 * The values shared by the backend and the frontend: optional values, the
 * metadata map stored per recipe, and the recipe record served to clients.
 */
module Records {

  datatype Option<T> = None | Some(value: T)

  /** `d.get(key, "")` on a metadata map; JavaScript reads a missing field as falsy, like "". */
  function Get(fields: map<string, string>, key: string): string {
    if key in fields then fields[key] else ""
  }

  /**
   * A recipe as the read endpoints return it: the store id and the stored
   * metadata (the eleven fields written by the corpus loader).
   */
  datatype Recipe = Recipe(id: string, fields: map<string, string>)

  function Field(r: Recipe, key: string): string {
    Get(r.fields, key)
  }

  /** `a` is `b` with some elements left out, the rest in their order. */
  predicate SubsequenceOf<T(==)>(a: seq<T>, b: seq<T>)
    decreases |b|
  {
    a == [] || (b != [] && ((a[0] == b[0] && SubsequenceOf(a[1..], b[1..])) || SubsequenceOf(a, b[1..])))
  }

  /**
   * `[x for x in s if keep(x)]` in Python, `s.filter(keep)` in JavaScript:
   * the elements that pass, in their order.
   */
  function Keep<T(!new)>(s: seq<T>, keep: T -> bool): (r: seq<T>)
    ensures |r| <= |s|
    ensures forall x :: x in r <==> x in s && keep(x)
  {
    if s == [] then [] else (if keep(s[0]) then [s[0]] else []) + Keep(s[1..], keep)
  }

  /** What is kept is an order-preserving subsequence. */
  lemma {:induction false} KeepIsSubsequence<T(!new)>(s: seq<T>, keep: T -> bool)
    ensures SubsequenceOf(Keep(s, keep), s)
  {
    if s != [] {
      KeepIsSubsequence(s[1..], keep);
      var rest := Keep(s[1..], keep);
      if keep(s[0]) {
        assert Keep(s, keep) == [s[0]] + rest;
        assert ([s[0]] + rest)[1..] == rest;
      } else {
        assert Keep(s, keep) == rest;
      }
    }
  }

  /** Each passing element is kept as often as it occurs, and no other element is kept. */
  lemma {:induction false} KeepCount<T(!new)>(s: seq<T>, keep: T -> bool)
    ensures forall x :: multiset(Keep(s, keep))[x] == if keep(x) then multiset(s)[x] else 0
  {
    if s != [] {
      KeepCount(s[1..], keep);
      assert s == [s[0]] + s[1..];
    }
  }

  /** Filters whose tests agree on every element keep the same elements. */
  lemma {:induction false} KeepAgreeing<T(!new)>(s: seq<T>, p: T -> bool, q: T -> bool)
    requires forall i :: 0 <= i < |s| ==> p(s[i]) == q(s[i])
    ensures Keep(s, p) == Keep(s, q)
  {
    if s != [] {
      KeepAgreeing(s[1..], p, q);
    }
  }

  /** A filter that passes every element keeps the whole sequence. */
  lemma {:induction false} KeepAll<T(!new)>(s: seq<T>, keep: T -> bool)
    requires forall i :: 0 <= i < |s| ==> keep(s[i])
    ensures Keep(s, keep) == s
  {
    if s != [] {
      KeepAll(s[1..], keep);
    }
  }

  /** `[y for x in s for y in f(x)]`: the pieces of every element, in order. */
  function Gather<T, U>(s: seq<T>, f: T -> seq<U>): seq<U> {
    if s == [] then [] else f(s[0]) + Gather(s[1..], f)
  }

  /** Gathering one more element appends its pieces. */
  lemma {:induction false} GatherSnoc<T, U>(s: seq<T>, x: T, f: T -> seq<U>)
    ensures Gather(s + [x], f) == Gather(s, f) + f(x)
  {
    if s == [] {
      assert [x][1..] == [];
    } else {
      GatherSnoc(s[1..], x, f);
      assert (s + [x])[1..] == s[1..] + [x];
      assert f(s[0]) + (Gather(s[1..], f) + f(x)) == (f(s[0]) + Gather(s[1..], f)) + f(x);
    }
  }
}
