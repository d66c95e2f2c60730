/** String and sequence helpers that stand for the Python built-ins the
    reporting scripts use: str.strip, str.lower, str.split, str.join, the
    `in` substring test, str.startswith / str.endswith, str.replace and
    list comprehensions with a filter. */
module Strings {

  datatype Option<T> = None | Some(value: T)

  datatype Result<T, E> = Ok(value: T) | Err(error: E)

  /** Characters Python's str.isspace() accepts, i.e. what str.strip() removes. */
  predicate IsSpace(c: char) {
    c == ' ' || ('\t' <= c <= '\r') || ('\U{1C}' <= c <= '\U{1F}') ||
    c == '\U{85}' || c == '\U{A0}' || c == '\U{1680}' ||
    ('\U{2000}' <= c <= '\U{200A}') || c == '\U{2028}' || c == '\U{2029}' ||
    c == '\U{202F}' || c == '\U{205F}' || c == '\U{3000}'
  }

  predicate IsPrefix(p: string, s: string) {
    |p| <= |s| && s[..|p|] == p
  }

  predicate IsSuffix(p: string, s: string) {
    |p| <= |s| && s[|s| - |p|..] == p
  }

  /** Python's `sub in s`. */
  predicate Contains(s: string, sub: string)
    decreases |s|
  {
    IsPrefix(sub, s) || (|s| > 0 && Contains(s[1..], sub))
  }

  lemma {:induction false} ContainsAt(s: string, sub: string, i: nat)
    requires i + |sub| <= |s| && s[i..i + |sub|] == sub
    ensures Contains(s, sub)
    decreases i
  {
    if i > 0 {
      assert s[1..][i - 1..i - 1 + |sub|] == s[i..i + |sub|];
      ContainsAt(s[1..], sub, i - 1);
    }
  }

  /** A string contains every string it is built around. */
  lemma ContainsMiddle(a: string, b: string, c: string)
    ensures Contains(a + b + c, b)
  {
    assert (a + b + c)[|a|..|a| + |b|] == b;
    ContainsAt(a + b + c, b, |a|);
  }

  /** `sub` occurs in `s` at position `k`. */
  predicate OccursAt(s: string, sub: string, k: nat) {
    k + |sub| <= |s| && s[k..k + |sub|] == sub
  }

  lemma {:induction false} ContainsWitness(s: string, sub: string)
    requires Contains(s, sub)
    ensures exists k: nat :: OccursAt(s, sub, k)
    decreases |s|
  {
    if IsPrefix(sub, s) {
      assert OccursAt(s, sub, 0);
    } else {
      ContainsWitness(s[1..], sub);
      var k: nat :| OccursAt(s[1..], sub, k);
      assert s[1..][k..k + |sub|] == s[k + 1..k + 1 + |sub|];
      assert OccursAt(s, sub, k + 1);
    }
  }

  /** A substring of a substring is a substring. */
  lemma ContainsTransitive(a: string, b: string, c: string)
    requires Contains(a, b) && Contains(b, c)
    ensures Contains(a, c)
  {
    ContainsWitness(a, b);
    ContainsWitness(b, c);
    var j: nat :| OccursAt(a, b, j);
    var k: nat :| OccursAt(b, c, k);
    forall t | 0 <= t < |c| ensures a[j + k + t] == c[t] {
      assert b[k + t] == c[t];
      assert a[j + (k + t)] == b[k + t];
    }
    assert a[j + k..j + k + |c|] == c;
    ContainsAt(a, c, j + k);
  }

  /** `sub in s` fails when `sub` occurs nowhere in `s`. */
  lemma {:induction false} NoOccurrenceNotContained(s: string, sub: string)
    requires forall k: nat :: !OccursAt(s, sub, k)
    ensures !Contains(s, sub)
    decreases |s|
  {
    assert !OccursAt(s, sub, 0);
    if |sub| <= |s| {
      assert s[..|sub|] == s[0..|sub|];
    }
    if |s| > 0 {
      forall k: nat ensures !OccursAt(s[1..], sub, k) {
        if k + |sub| <= |s[1..]| {
          assert s[1..][k..k + |sub|] == s[k + 1..k + 1 + |sub|];
          assert !OccursAt(s, sub, k + 1);
        }
      }
      NoOccurrenceNotContained(s[1..], sub);
    }
  }

  /** A string cannot contain a string with a character it lacks. */
  lemma MissingCharNotContained(s: string, sub: string, c: char)
    requires c in sub && c !in s
    ensures !Contains(s, sub)
  {
    var w :| 0 <= w < |sub| && sub[w] == c;
    forall k: nat ensures !OccursAt(s, sub, k) {
      if k + |sub| <= |s| {
        assert s[k..k + |sub|][w] == s[k + w];
      }
    }
    NoOccurrenceNotContained(s, sub);
  }

  /** Python's str.lstrip() with no argument. */
  function TrimLeft(s: string): (r: string)
    ensures |r| <= |s|
    ensures forall k :: 0 <= k < |s| - |r| ==> IsSpace(s[k])
    ensures |r| > 0 ==> !IsSpace(r[0])
    decreases |s|
  {
    if |s| > 0 && IsSpace(s[0]) then TrimLeft(s[1..]) else s
  }

  /** Python's str.rstrip() with no argument. */
  function TrimRight(s: string): (r: string)
    ensures |r| <= |s| && forall k :: 0 <= k < |r| ==> r[k] == s[k]
    ensures forall k :: |r| <= k < |s| ==> IsSpace(s[k])
    ensures |r| > 0 ==> !IsSpace(r[|r| - 1])
    decreases |s|
  {
    if |s| > 0 && IsSpace(s[|s| - 1]) then TrimRight(s[..|s| - 1]) else s
  }

  /** Python's str.strip() with no argument: the longest slice of `s` that
      neither starts nor ends with white space. */
  function Trim(s: string): (r: string)
    ensures |r| <= |s|
    ensures |r| > 0 ==> !IsSpace(r[0]) && !IsSpace(r[|r| - 1])
  {
    TrimRight(TrimLeft(s))
  }

  /** What lstrip leaves is a suffix of `s`. */
  lemma {:induction false} TrimLeftSuffix(s: string)
    ensures TrimLeft(s) == s[|s| - |TrimLeft(s)|..]
    decreases |s|
  {
    if |s| > 0 && IsSpace(s[0]) {
      TrimLeftSuffix(s[1..]);
      assert s[1..][|s| - 1 - |TrimLeft(s)|..] == s[|s| - |TrimLeft(s)|..];
    }
  }

  /** The strip of `s` is the slice of `s` left after its leading white space. */
  lemma TrimSlice(s: string)
    ensures var lo := |s| - |TrimLeft(s)|; lo + |Trim(s)| <= |s| && Trim(s) == s[lo..lo + |Trim(s)|]
  {
    TrimLeftSuffix(s);
  }

  /** A string that neither starts nor ends with white space is its own
      strip. */
  lemma TrimmedFixed(s: string)
    requires |s| > 0 ==> !IsSpace(s[0]) && !IsSpace(s[|s| - 1])
    ensures Trim(s) == s
  {
  }

  /** Stripping twice is stripping once. */
  lemma TrimIdempotent(s: string)
    ensures Trim(Trim(s)) == Trim(s)
  {
    TrimmedFixed(Trim(s));
  }

  /** Stripping only removes characters. */
  lemma TrimKeeps(s: string)
    ensures forall c :: c in Trim(s) ==> c in s
  {
    var lo := |s| - |TrimLeft(s)|;
    var r := Trim(s);
    forall c | c in r ensures c in s {
      var i :| 0 <= i < |r| && r[i] == c;
      var t := TrimLeft(s);
      TrimLeftSuffix(s);
      assert r == TrimRight(t) && r[i] == t[i];
      assert t[i] == s[lo + i];
    }
  }

  /** [p.strip() for p in parts]. */
  function TrimAll(parts: seq<string>): (r: seq<string>)
    ensures |r| == |parts| && forall i :: 0 <= i < |parts| ==> r[i] == Trim(parts[i])
  {
    seq(|parts|, i requires 0 <= i < |parts| => Trim(parts[i]))
  }

  lemma TrimAllSnoc(q: seq<string>)
    requires |q| > 0
    ensures TrimAll(q) == TrimAll(q[..|q| - 1]) + [Trim(q[|q| - 1])]
  {
  }

  /** Python's str.strip(chars): drops leading and trailing members of `cs`. */
  function StripChars(s: string, cs: set<char>): (r: string)
    ensures |r| <= |s|
    ensures |r| > 0 ==> r[0] !in cs && r[|r| - 1] !in cs
    decreases |s|
  {
    if |s| > 0 && s[0] in cs then StripChars(s[1..], cs)
    else if |s| > 0 && s[|s| - 1] in cs then StripChars(s[..|s| - 1], cs)
    else s
  }

  /** `r` is the slice of `s` at `lo`, and everything of `s` outside it is
      in `cs`. */
  predicate StrippedAt(s: string, r: string, cs: set<char>, lo: nat) {
    lo + |r| <= |s| && r == s[lo..lo + |r|] &&
    (forall k :: 0 <= k < lo ==> s[k] in cs) && (forall k :: lo + |r| <= k < |s| ==> s[k] in cs)
  }

  /** The result is the slice of `s` left once its leading and trailing
      members of `cs` are removed. */
  lemma {:induction false} StripCharsSlice(s: string, cs: set<char>)
    ensures exists lo: nat :: StrippedAt(s, StripChars(s, cs), cs, lo)
    decreases |s|
  {
    var r := StripChars(s, cs);
    if |s| > 0 && s[0] in cs {
      StripCharsSlice(s[1..], cs);
      var lo: nat :| StrippedAt(s[1..], r, cs, lo);
      StrippedAtCons(s, r, cs, lo);
    } else if |s| > 0 && s[|s| - 1] in cs {
      StripCharsSlice(s[..|s| - 1], cs);
      var lo: nat :| StrippedAt(s[..|s| - 1], r, cs, lo);
      StrippedAtSnoc(s, r, cs, lo);
    } else {
      assert StrippedAt(s, r, cs, 0);
    }
  }

  lemma StrippedAtCons(s: string, r: string, cs: set<char>, lo: nat)
    requires |s| > 0 && s[0] in cs && StrippedAt(s[1..], r, cs, lo)
    ensures StrippedAt(s, r, cs, lo + 1)
  {
    var t := s[1..];
    assert t[lo..lo + |r|] == s[lo + 1..lo + 1 + |r|];
    forall k | 0 < k < |s| ensures s[k] == t[k - 1] { }
  }

  lemma StrippedAtSnoc(s: string, r: string, cs: set<char>, lo: nat)
    requires |s| > 0 && s[|s| - 1] in cs && StrippedAt(s[..|s| - 1], r, cs, lo)
    ensures StrippedAt(s, r, cs, lo)
  {
    var t := s[..|s| - 1];
    assert t[lo..lo + |r|] == s[lo..lo + |r|];
    forall k | 0 <= k < |t| ensures s[k] == t[k] { }
  }

  /** strip('[]') keeps whatever lies between the outer brackets. */
  lemma StripBrackets(x: string)
    requires |x| > 0 && x[0] != '[' && x[0] != ']' && x[|x| - 1] != '[' && x[|x| - 1] != ']'
    ensures StripChars("[" + x + "]", {'[', ']'}) == x
  {
    var cs := {'[', ']'};
    var s := "[" + x + "]";
    var t := x + "]";
    assert s[0] == '[' && s[1..] == t;
    assert StripChars(s, cs) == StripChars(t, cs);
    assert t[0] == x[0] && t[|t| - 1] == ']' && t[..|t| - 1] == x;
    assert StripChars(t, cs) == StripChars(x, cs);
    assert x[0] !in cs && x[|x| - 1] !in cs;
  }

  function LowerChar(c: char): char {
    if 'A' <= c <= 'Z' then (c as int + 32) as char else c
  }

  /** Python's str.lower(), on the ASCII letters. */
  function Lower(s: string): (r: string)
    ensures |r| == |s|
    ensures forall i :: 0 <= i < |s| ==> r[i] == LowerChar(s[i])
  {
    seq(|s|, i requires 0 <= i < |s| => LowerChar(s[i]))
  }

  lemma LowerConcat(a: string, b: string)
    ensures Lower(a + b) == Lower(a) + Lower(b)
  {
  }

  lemma LowerIdempotent(s: string)
    ensures Lower(Lower(s)) == Lower(s)
  {
  }

  /** Python's str.replace(a, b) for single characters. */
  function ReplaceChar(s: string, a: char, b: char): (r: string)
    ensures |r| == |s|
    ensures forall i :: 0 <= i < |s| ==> r[i] == (if s[i] == a then b else s[i])
  {
    seq(|s|, i requires 0 <= i < |s| => if s[i] == a then b else s[i])
  }

  /** Python's str.replace(pat, ""): every non-overlapping occurrence of
      `pat`, scanning left to right, is removed. */
  function RemoveAll(s: string, pat: string): (r: string)
    requires |pat| > 0
    ensures |r| <= |s|
    decreases |s|
  {
    if IsPrefix(pat, s) then RemoveAll(s[|pat|..], pat)
    else if |s| == 0 then s
    else [s[0]] + RemoveAll(s[1..], pat)
  }

  lemma {:induction false} RemoveAllAbsent(s: string, pat: string)
    requires |pat| > 0 && !Contains(s, pat)
    ensures RemoveAll(s, pat) == s
    decreases |s|
  {
    if |s| > 0 {
      RemoveAllAbsent(s[1..], pat);
      assert [s[0]] + s[1..] == s;
    }
  }

  /** Python's str.split(sep) for a single-character separator. */
  function Split(s: string, sep: char): (r: seq<string>)
    ensures |r| >= 1
    ensures forall i :: 0 <= i < |r| ==> sep !in r[i]
    decreases |s|
  {
    if |s| == 0 then [""]
    else
      var rest := Split(s[1..], sep);
      if s[0] == sep then [""] + rest
      else [[s[0]] + rest[0]] + rest[1..]
  }

  /** Appending the separator starts a new, empty last piece. */
  lemma {:induction false} SplitSnocSep(s: string, sep: char)
    ensures Split(s + [sep], sep) == Split(s, sep) + [""]
    decreases |s|
  {
    if |s| == 0 {
      assert s + [sep] == [sep];
      assert [sep][1..] == "";
      assert Split([sep], sep) == [""] + Split("", sep);
    } else {
      var r := Split(s[1..], sep);
      assert (s + [sep])[1..] == s[1..] + [sep];
      SplitSnocSep(s[1..], sep);
      var r' := Split(s[1..] + [sep], sep);
      assert r' == r + [""];
      if s[0] != sep {
        assert r'[0] == r[0] && r'[1..] == r[1..] + [""];
      }
    }
  }

  lemma SplitSingle(c: char, sep: char)
    requires c != sep
    ensures Split([c], sep) == [[c]]
  {
    assert [c][1..] == "";
    assert Split("", sep) == [""];
    assert [c] + "" == [c];
  }

  /** Appending any other character extends the last piece. */
  lemma {:induction false} SplitSnocOther(s: string, c: char, sep: char)
    requires c != sep
    ensures var p := Split(s, sep);
      Split(s + [c], sep) == p[..|p| - 1] + [p[|p| - 1] + [c]]
    decreases |s|
  {
    if |s| == 0 {
      assert s + [c] == [c];
      SplitSingle(c, sep);
    } else {
      assert (s + [c])[1..] == s[1..] + [c];
      SplitSnocOther(s[1..], c, sep);
      if s[0] != sep {
        ExtendFirstPiece(s, c, sep);
      }
    }
  }

  lemma ExtendFirstPiece(s: string, c: char, sep: char)
    requires c != sep && |s| > 0 && s[0] != sep
    requires var r := Split(s[1..], sep);
      Split(s[1..] + [c], sep) == r[..|r| - 1] + [r[|r| - 1] + [c]]
    ensures var p := Split(s, sep);
      Split(s + [c], sep) == p[..|p| - 1] + [p[|p| - 1] + [c]]
  {
    var r := Split(s[1..], sep);
    var r' := Split(s[1..] + [c], sep);
    assert (s + [c])[1..] == s[1..] + [c];
    var p := [[s[0]] + r[0]] + r[1..];
    assert Split(s, sep) == p;
    assert Split(s + [c], sep) == [[s[0]] + r'[0]] + r'[1..];
    if |r| == 1 {
      assert r' == [r[0] + [c]];
      assert [s[0]] + (r[0] + [c]) == ([s[0]] + r[0]) + [c];
    } else {
      assert r'[0] == r[0];
      assert r'[1..] == r[1..|r| - 1] + [r[|r| - 1] + [c]];
      assert p[..|p| - 1] == [[s[0]] + r[0]] + r[1..|r| - 1];
    }
  }

  /** Python's sep.join(parts). */
  function Join(parts: seq<string>, sep: string): string
    decreases |parts|
  {
    if |parts| == 0 then ""
    else if |parts| == 1 then parts[0]
    else parts[0] + sep + Join(parts[1..], sep)
  }

  /** Splitting and joining again gives back the original string. */
  lemma {:induction false} JoinSplit(s: string, sep: char)
    ensures Join(Split(s, sep), [sep]) == s
    decreases |s|
  {
    if |s| > 0 {
      var rest := Split(s[1..], sep);
      JoinSplit(s[1..], sep);
      if s[0] == sep {
        assert Split(s, sep) == [""] + rest;
        assert ([""] + rest)[1..] == rest;
      } else {
        var p := [[s[0]] + rest[0]] + rest[1..];
        assert Split(s, sep) == p;
        if |rest| == 1 {
          assert Join(rest, [sep]) == rest[0];
        } else {
          assert p[1..] == rest[1..];
          assert Join(rest, [sep]) == rest[0] + [sep] + Join(rest[1..], [sep]);
        }
      }
    }
  }

  /** The elements of `s` that satisfy `p`, in order: a filtered list
      comprehension. */
  function Filter<T>(s: seq<T>, p: T -> bool): (r: seq<T>)
    ensures |r| <= |s|
    ensures forall x :: x in r ==> x in s && p(x)
    ensures forall x :: x in s && p(x) ==> x in r
    decreases |s|
  {
    if |s| == 0 then []
    else if p(s[0]) then [s[0]] + Filter(s[1..], p)
    else Filter(s[1..], p)
  }

  lemma {:induction false} FilterConcat<T>(a: seq<T>, b: seq<T>, p: T -> bool)
    ensures Filter(a + b, p) == Filter(a, p) + Filter(b, p)
    decreases |a|
  {
    if |a| > 0 {
      assert (a + b)[0] == a[0];
      assert (a + b)[1..] == a[1..] + b;
      FilterConcat(a[1..], b, p);
    } else {
      assert a + b == b;
    }
  }

  /** One more element of `s` adds itself to the filtered prefix when it
      satisfies `p`, and nothing otherwise. */
  lemma FilterPrefixStep<T>(s: seq<T>, i: nat, p: T -> bool)
    requires i < |s|
    ensures Filter(s[..i + 1], p) == Filter(s[..i], p) + (if p(s[i]) then [s[i]] else [])
  {
    assert s[..i + 1] == s[..i] + [s[i]];
    FilterConcat(s[..i], [s[i]], p);
    assert [s[i]][1..] == [];
  }
}
