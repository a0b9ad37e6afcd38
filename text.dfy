/**
 * Character classes and the string operations that the backend (Python) and
 * the frontend (JavaScript) apply to recipe text: strip/trim, lower-casing,
 * splitting on a separator, joining, and substring tests.
 *
 * Character classes are the ASCII ones: the Unicode extent of Python's `\w`,
 * `\s`, `str.isspace`, `str.lower` and JavaScript's `trim`/`toLowerCase` is
 * not modelled.
 */
module Text {

  /** Whitespace: space, tab, line feed, vertical tab, form feed, carriage return. */
  predicate IsSpace(c: char) {
    c == ' ' || '\t' <= c <= '\r'
  }

  predicate IsDigit(c: char) {
    '0' <= c <= '9'
  }

  /** The characters of the regular-expression class `\w`. */
  predicate IsWordChar(c: char) {
    'a' <= c <= 'z' || 'A' <= c <= 'Z' || IsDigit(c) || c == '_'
  }

  function LowerChar(c: char): char {
    if 'A' <= c <= 'Z' then (c as int - 'A' as int + 'a' as int) as char else c
  }

  /** `str.lower()` / `String.prototype.toLowerCase()` on ASCII letters. */
  function Lower(s: string): string {
    seq(|s|, i requires 0 <= i < |s| => LowerChar(s[i]))
  }

  function TrimStart(s: string): (r: string)
    ensures r == [] || !IsSpace(r[0])
  {
    if s != [] && IsSpace(s[0]) then TrimStart(s[1..]) else s
  }

  function TrimEnd(s: string): (r: string)
    ensures r == [] || !IsSpace(r[|r| - 1])
  {
    if s != [] && IsSpace(s[|s| - 1]) then TrimEnd(s[..|s| - 1]) else s
  }

  /** `str.strip()` / `String.prototype.trim()`: whitespace removed at both ends. */
  function Strip(s: string): string {
    TrimEnd(TrimStart(s))
  }

  /** `s.split(sep)` for a non-empty separator: occurrences found left to right, without overlap. */
  function SplitOn(s: string, sep: string): (parts: seq<string>)
    requires |sep| > 0
    ensures |parts| >= 1
    decreases |s|
  {
    if |s| < |sep| then [s]
    else if s[..|sep|] == sep then [""] + SplitOn(s[|sep|..], sep)
    else
      var rest := SplitOn(s[1..], sep);
      [[s[0]] + rest[0]] + rest[1..]
  }

  /** `s.split(c)` for a one-character separator. */
  function Split(s: string, c: char): seq<string> {
    SplitOn(s, [c])
  }

  /** Every piece stripped. */
  function StripAll(pieces: seq<string>): (r: seq<string>)
    ensures |r| == |pieces|
  {
    if pieces == [] then [] else [Strip(pieces[0])] + StripAll(pieces[1..])
  }

  /** Each piece of `StripAll` is the stripped piece at the same position. */
  lemma {:induction false} StripAllAt(pieces: seq<string>, k: nat)
    requires k < |pieces|
    ensures StripAll(pieces)[k] == Strip(pieces[k])
  {
    if k > 0 {
      StripAllAt(pieces[1..], k - 1);
    }
  }

  /** `sep.join(parts)` in Python, `parts.join(sep)` in JavaScript. */
  function Join(sep: string, parts: seq<string>): string {
    if |parts| == 0 then ""
    else if |parts| == 1 then parts[0]
    else parts[0] + sep + Join(sep, parts[1..])
  }

  /** `sub in s` in Python, `s.includes(sub)` in JavaScript. */
  predicate Contains(s: string, sub: string) {
    |sub| <= |s| && (s[..|sub|] == sub || Contains(s[1..], sub))
  }

  /** `s.replace(c, "")`: every occurrence of `c` deleted. */
  function Without(s: string, c: char): (r: string)
    ensures forall d :: d in r <==> d in s && d != c
    ensures |r| <= |s|
  {
    if s == [] then [] else (if s[0] == c then [] else [s[0]]) + Without(s[1..], c)
  }

  /** Number of occurrences of `c` in `s`. */
  function Occurrences(s: string, c: char): nat {
    if s == [] then 0 else (if s[0] == c then 1 else 0) + Occurrences(s[1..], c)
  }

  /** Every character of a substring occurs in the string. */
  lemma {:induction false} ContainsChars(s: string, sub: string, k: nat)
    requires Contains(s, sub) && k < |sub|
    ensures sub[k] in s
  {
    if s[..|sub|] == sub {
      assert s[k] == sub[k];
    } else {
      ContainsChars(s[1..], sub, k);
    }
  }

  /** An occurrence at any position is found by the substring test. */
  lemma {:induction false} ContainsAt(s: string, sub: string, k: nat)
    requires k + |sub| <= |s| && s[k..k + |sub|] == sub
    ensures Contains(s, sub)
  {
    if k > 0 {
      assert s[1..][k - 1..k - 1 + |sub|] == sub;
      ContainsAt(s[1..], sub, k - 1);
    }
  }

  /** A string containing `a + b` contains `b`. */
  lemma {:induction false} ContainsSuffix(s: string, a: string, b: string)
    requires Contains(s, a + b)
    ensures Contains(s, b)
  {
    if s[..|a + b|] == a + b {
      assert s[|a|..|a| + |b|] == (a + b)[|a|..];
      ContainsAt(s, b, |a|);
    } else {
      ContainsSuffix(s[1..], a, b);
    }
  }

  /** A stripped string is no longer than the original and neither starts nor ends with whitespace. */
  lemma StripEnds(s: string)
    ensures |Strip(s)| <= |s|
    ensures Strip(s) == [] || (!IsSpace(Strip(s)[0]) && !IsSpace(Strip(s)[|Strip(s)| - 1]))
  {
    TrimStartIsSuffix(s);
    TrimEndIsPrefix(TrimStart(s));
  }

  /** Joining the pieces of a split with the separator gives the string back. */
  lemma {:induction false} JoinSplitOn(s: string, sep: string)
    requires |sep| > 0
    ensures Join(sep, SplitOn(s, sep)) == s
    decreases |s|
  {
    if |s| < |sep| {
    } else if s[..|sep|] == sep {
      var rest := SplitOn(s[|sep|..], sep);
      assert SplitOn(s, sep) == [""] + rest;
      JoinSplitOn(s[|sep|..], sep);
      JoinCons(sep, "", rest);
      assert s == sep + s[|sep|..];
    } else {
      var rest := SplitOn(s[1..], sep);
      assert SplitOn(s, sep) == [[s[0]] + rest[0]] + rest[1..];
      JoinSplitOn(s[1..], sep);
      JoinExtendHead(sep, s[0], rest);
      assert s == [s[0]] + s[1..];
    }
  }

  /** The first piece of a split is a prefix of the string. */
  lemma {:induction false} SplitOnHeadIsPrefix(s: string, sep: string)
    requires |sep| > 0
    ensures |SplitOn(s, sep)[0]| <= |s| && SplitOn(s, sep)[0] == s[..|SplitOn(s, sep)[0]|]
    decreases |s|
  {
    if |s| >= |sep| && s[..|sep|] != sep {
      SplitOnHeadIsPrefix(s[1..], sep);
    }
  }

  /** No piece of a split contains the separator: occurrences are cut leftmost first. */
  lemma {:induction false} SplitOnPiecesFree(s: string, sep: string)
    requires |sep| > 0
    ensures forall i :: 0 <= i < |SplitOn(s, sep)| ==> !Contains(SplitOn(s, sep)[i], sep)
    decreases |s|
  {
    if |s| < |sep| {
    } else if s[..|sep|] == sep {
      SplitOnPiecesFree(s[|sep|..], sep);
      var rest := SplitOn(s[|sep|..], sep);
      assert SplitOn(s, sep) == [""] + rest;
    } else {
      SplitOnPiecesFree(s[1..], sep);
      SplitOnHeadIsPrefix(s[1..], sep);
      var rest := SplitOn(s[1..], sep);
      var head := [s[0]] + rest[0];
      assert SplitOn(s, sep) == [head] + rest[1..];
      assert head[1..] == rest[0];
      if |sep| <= |head| {
        assert head[..|sep|] == s[..|sep|];
      }
    }
  }

  /** Joining a piece in front of at least one other. */
  lemma JoinCons(sep: string, p: string, rest: seq<string>)
    requires |rest| >= 1
    ensures Join(sep, [p] + rest) == p + sep + Join(sep, rest)
  {
    assert ([p] + rest)[1..] == rest;
  }

  /** Extending the first piece by a character extends the join by that character. */
  lemma JoinExtendHead(sep: string, c: char, rest: seq<string>)
    requires |rest| >= 1
    ensures Join(sep, [[c] + rest[0]] + rest[1..]) == [c] + Join(sep, rest)
  {
    if |rest| > 1 {
      JoinCons(sep, [c] + rest[0], rest[1..]);
      JoinCons(sep, rest[0], rest[1..]);
      assert rest == [rest[0]] + rest[1..];
    } else {
      assert [[c] + rest[0]] + rest[1..] == [[c] + rest[0]];
    }
  }

  /** Stripping is idempotent. */
  lemma StripIdempotent(s: string)
    ensures Strip(Strip(s)) == Strip(s)
  {
    var t := TrimStart(s);
    var u := TrimEnd(t);
    if u != [] {
      TrimEndIsPrefix(t);
      assert u[0] == t[0];
      assert TrimStart(u) == u;
    }
  }

  /** Stripping only removes characters. */
  lemma StripKeepsChars(s: string)
    ensures forall c :: c in Strip(s) ==> c in s
  {
    TrimStartIsSuffix(s);
    TrimEndIsPrefix(TrimStart(s));
  }

  lemma {:induction false} TrimStartIsSuffix(s: string)
    ensures |TrimStart(s)| <= |s| && TrimStart(s) == s[|s| - |TrimStart(s)|..]
  {
    if s != [] && IsSpace(s[0]) {
      TrimStartIsSuffix(s[1..]);
    }
  }

  lemma {:induction false} TrimEndIsPrefix(s: string)
    ensures |TrimEnd(s)| <= |s| && TrimEnd(s) == s[..|TrimEnd(s)|]
  {
    if s != [] && IsSpace(s[|s| - 1]) {
      TrimEndIsPrefix(s[..|s| - 1]);
    }
  }

  /** A leading space does not survive stripping. */
  lemma StripLeadingSpace(p: string)
    ensures Strip(" " + p) == Strip(p)
  {
    assert (" " + p)[1..] == p;
  }

  /** One piece more than there are separators. */
  lemma {:induction false} SplitCount(s: string, c: char)
    ensures |Split(s, c)| == Occurrences(s, c) + 1
  {
    if |s| >= 1 {
      SplitCount(s[1..], c);
      if s[..1] == [c] {
        assert s[1..] == s[|[c]|..];
      }
    }
  }

  /** No piece of a split contains the separator. */
  lemma {:induction false} SplitPiecesFree(s: string, c: char)
    ensures forall i :: 0 <= i < |Split(s, c)| ==> c !in Split(s, c)[i]
  {
    if |s| >= 1 {
      SplitPiecesFree(s[1..], c);
      if s[..1] == [c] {
        assert s[1..] == s[|[c]|..];
        var parts := Split(s, c);
        assert parts == [""] + Split(s[1..], c);
        forall i | 1 <= i < |parts| ensures c !in parts[i] {
          assert parts[i] == Split(s[1..], c)[i - 1];
        }
      } else {
        assert s[0] != c;
        var rest := Split(s[1..], c);
        assert c !in rest[0];
        assert Split(s, c) == [[s[0]] + rest[0]] + rest[1..];
      }
    }
  }

  /** Splitting a join of separator-free pieces gives the pieces back. */
  lemma {:induction false} SplitJoin(parts: seq<string>, c: char)
    requires |parts| >= 1
    requires forall i :: 0 <= i < |parts| ==> c !in parts[i]
    ensures Split(Join([c], parts), c) == parts
  {
    if |parts| == 1 {
      SplitFree(parts[0], c);
    } else {
      SplitJoin(parts[1..], c);
      SplitAfterFreePrefix(parts[0], Join([c], parts[1..]), c);
    }
  }

  lemma {:induction false} SplitFree(p: string, c: char)
    requires c !in p
    ensures Split(p, c) == [p]
  {
    if |p| >= 1 {
      assert p[0] != c;
      assert p[..1] != [c];
      SplitFree(p[1..], c);
      assert [p[0]] + p[1..] == p;
    }
  }

  lemma {:induction false} SplitAfterFreePrefix(p: string, rest: string, c: char)
    requires c !in p
    ensures Split(p + [c] + rest, c) == [p] + Split(rest, c)
  {
    var s := p + [c] + rest;
    if p == [] {
      assert s[..1] == [c];
      assert s[1..] == rest;
    } else {
      assert s[0] == p[0] != c;
      assert s[..1] != [c];
      assert s[1..] == p[1..] + [c] + rest;
      SplitAfterFreePrefix(p[1..], rest, c);
      assert [p[0]] + p[1..] == p;
    }
  }

  /** Joining with a two-character separator is joining with its first character after prefixing the second. */
  lemma {:induction false} JoinSpaced(parts: seq<string>, c: char, d: char)
    requires |parts| >= 1
    ensures Join([c, d], parts) == Join([c], [parts[0]] + Prefixed(parts[1..], d))
  {
    if |parts| > 1 {
      JoinSpaced(parts[1..], c, d);
      var tail := Prefixed(parts[1..], d);
      assert Prefixed(parts[2..], d) == tail[1..];
      assert ([parts[0]] + tail)[1..] == tail;
    }
  }

  /** Every piece but none is given a leading character. */
  function Prefixed(parts: seq<string>, d: char): (r: seq<string>)
    ensures |r| == |parts|
    ensures forall i :: 0 <= i < |parts| ==> r[i] == [d] + parts[i]
  {
    if parts == [] then [] else [[d] + parts[0]] + Prefixed(parts[1..], d)
  }
}
