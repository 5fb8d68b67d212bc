/**
 * Character classes, string helpers and small sequence utilities shared by every module.
 *
 * Python's `str` methods and regular-expression classes are Unicode-aware; the model gives
 * them their exact meaning on the Latin-1 range (code points below 256) and treats every
 * other character as neither a letter, a digit nor whitespace.
 */
module TextUtil {

  datatype Option<T> = None | Some(value: T)

  /** Python's `str.isspace()` (and the regular-expression class `\s`) on Latin-1. */
  predicate IsSpace(c: char) {
    c == ' ' || c == '\t' || c == '\n' || c == '\r' || c == '\U{B}' || c == '\U{C}'
    || ('\U{1C}' <= c <= '\U{1F}') || c == '\U{85}' || c == '\U{A0}'
  }

  predicate IsDigit(c: char) { '0' <= c <= '9' }

  predicate IsAsciiUpper(c: char) { 'A' <= c <= 'Z' }

  predicate IsAsciiLower(c: char) { 'a' <= c <= 'z' }

  predicate IsAsciiLetter(c: char) { IsAsciiUpper(c) || IsAsciiLower(c) }

  /** Upper-case letters of Latin-1 (what `str.isupper()` accepts as a first letter). */
  predicate IsUpper(c: char) {
    IsAsciiUpper(c) || ('\U{C0}' <= c <= '\U{DE}' && c != '\U{D7}')
  }

  /** Letters and digits of Latin-1 outside ASCII, as `str.isalnum()` classifies them. */
  predicate IsLatin1Alnum(c: char) {
    c == '\U{AA}' || c == '\U{B2}' || c == '\U{B3}' || c == '\U{B5}' || c == '\U{B9}' || c == '\U{BA}'
    || ('\U{BC}' <= c <= '\U{BE}')
    || ('\U{C0}' <= c <= '\U{FF}' && c != '\U{D7}' && c != '\U{F7}')
  }

  /** The regular-expression class `\w`: letters, digits and the underscore. */
  predicate IsWordChar(c: char) {
    IsAsciiLetter(c) || IsDigit(c) || c == '_' || IsLatin1Alnum(c)
  }

  /** `str.lower()` on one character. */
  function Lower(c: char): char {
    if IsUpper(c) then (c as int + 32) as char else c
  }

  /** Lowering leaves no upper-case letter and keeps whitespace and word characters as they are. */
  lemma LowerSpec(c: char)
    ensures !IsUpper(Lower(c))
    ensures IsSpace(Lower(c)) <==> IsSpace(c)
    ensures IsWordChar(Lower(c)) <==> IsWordChar(c)
  {
  }

  lemma LowerIdempotent(c: char)
    ensures Lower(Lower(c)) == Lower(c)
  {
  }

  /** `str.lower()`. */
  function LowerStr(s: string): (r: string)
    ensures |r| == |s|
  {
    seq(|s|, i requires 0 <= i < |s| => Lower(s[i]))
  }

  lemma LowerStrIdempotent(s: string)
    ensures LowerStr(LowerStr(s)) == LowerStr(s)
  {
    forall i | 0 <= i < |s| ensures LowerStr(LowerStr(s))[i] == LowerStr(s)[i] {
      LowerIdempotent(s[i]);
    }
  }

  lemma LowerStrAppend(a: string, b: string)
    ensures LowerStr(a + b) == LowerStr(a) + LowerStr(b)
  {
  }

  predicate NoSpace(w: string) {
    forall i :: 0 <= i < |w| ==> !IsSpace(w[i])
  }

  predicate AllSpace(w: string) {
    forall i :: 0 <= i < |w| ==> IsSpace(w[i])
  }

  /** `str.lstrip()`. */
  function TrimStart(s: string): (r: string)
    ensures |r| <= |s| && r == s[|s| - |r|..]
    ensures r == [] || !IsSpace(r[0])
    ensures AllSpace(s[..|s| - |r|])
    decreases |s|
  {
    if s != [] && IsSpace(s[0]) then TrimStart(s[1..]) else s
  }

  /** `str.rstrip()`. */
  function TrimEnd(s: string): (r: string)
    ensures |r| <= |s| && r == s[..|r|]
    ensures r == [] || !IsSpace(r[|r| - 1])
    ensures AllSpace(s[|r|..])
    decreases |s|
  {
    if s != [] && IsSpace(s[|s| - 1]) then
      var r := TrimEnd(s[..|s| - 1]);
      assert s[|r|..] == s[..|s| - 1][|r|..] + [s[|s| - 1]];
      r
    else s
  }

  /** `str.strip()`: the infix of `s` between its leading and trailing whitespace. */
  function Strip(s: string): (r: string)
    ensures |r| <= |s|
    ensures r == [] || (!IsSpace(r[0]) && !IsSpace(r[|r| - 1]))
  {
    var t := TrimStart(s);
    var r := TrimEnd(t);
    assert r == [] || r[0] == t[0];
    r
  }

  /** A stripped string has no whitespace at either end, and is empty just for blank input. */
  lemma StripSpec(s: string)
    ensures var r := Strip(s);
      && (r == [] || (!IsSpace(r[0]) && !IsSpace(r[|r| - 1])))
      && (r == [] <==> AllSpace(s))
  {
    var t := TrimStart(s);
    var k := |s| - |t|;
    var r := TrimEnd(t);
    if r != [] {
      assert r[0] == t[0];
    }
    if r == [] {
      assert t == [];
      forall i | 0 <= i < |s| ensures IsSpace(s[i]) {
        assert s[i] == s[..k][i];
      }
    }
    if t != [] {
      assert s[k] == t[0];
    }
  }

  /** A stripped string is a slice of the original, starting after its leading whitespace. */
  lemma StripSlice(s: string) returns (a: nat)
    ensures a + |Strip(s)| <= |s| && Strip(s) == s[a..a + |Strip(s)|]
  {
    var t := TrimStart(s);
    a := |s| - |t|;
    var r := TrimEnd(t);
    SliceOfSlice(s, a, |r|);
  }

  /** A prefix of a suffix is a slice. */
  lemma SliceOfSlice<T>(s: seq<T>, a: nat, n: nat)
    requires a + n <= |s|
    ensures s[a..][..n] == s[a..a + n]
  {
  }

  /** A string with no surrounding whitespace is its own strip. */
  lemma StripOfTrimmed(s: string)
    requires s == [] || (!IsSpace(s[0]) && !IsSpace(s[|s| - 1]))
    ensures Strip(s) == s
  {
  }

  /** Index just past the run of non-whitespace characters that starts at `i`. */
  function TokenEnd(s: string, i: nat): (j: nat)
    requires i <= |s|
    ensures i <= j <= |s|
    ensures NoSpace(s[i..j])
    ensures j == |s| || IsSpace(s[j])
    decreases |s| - i
  {
    if i < |s| && !IsSpace(s[i]) then TokenEnd(s, i + 1) else i
  }

  /** `str.split()` with no argument: the maximal runs of non-whitespace characters. */
  function Words(s: string): (ws: seq<string>)
    decreases |s|
  {
    var t := TrimStart(s);
    if t == [] then [] else
      var n := TokenEnd(t, 0);
      [t[..n]] + Words(t[n..])
  }

  /** `sep.join(ws)`. */
  function Join(ws: seq<string>, sep: string): string {
    if |ws| == 0 then "" else if |ws| == 1 then ws[0] else ws[0] + sep + Join(ws[1..], sep)
  }

  lemma TrimStartOfWordStart(x: string)
    requires x == [] || !IsSpace(x[0])
    ensures TrimStart(x) == x
  {
  }

  /** A word followed by a space and more text splits off as the first word. */
  lemma WordsCons(w: string, rest: string)
    requires w != [] && NoSpace(w)
    requires rest == [] || !IsSpace(rest[0])
    ensures Words(w + " " + rest) == [w] + Words(rest)
  {
    var t := w + " " + rest;
    assert t == w + (" " + rest);
    TrimStartOfWordStart(t);
    TokenEndOfWord(w, " " + rest);
    assert t[..|w|] == w;
    assert t[|w|..] == " " + rest;
    assert TrimStart(" " + rest) == TrimStart(rest);
    TrimStartOfWordStart(rest);
  }

  lemma WordsSingle(w: string)
    requires w != [] && NoSpace(w)
    ensures Words(w) == [w]
  {
    TrimStartOfWordStart(w);
    TokenEndOfWord(w, "");
    assert w + "" == w;
    assert w[..|w|] == w;
    assert w[|w|..] == [];
  }

  predicate AreWords(ws: seq<string>) {
    forall k :: 0 <= k < |ws| ==> ws[k] != [] && NoSpace(ws[k])
  }

  /** Every piece of `str.split()` is a non-empty run without whitespace. */
  lemma {:induction false} WordsAreWords(s: string)
    ensures AreWords(Words(s))
    decreases |s|
  {
    var t := TrimStart(s);
    if t != [] {
      var n := TokenEnd(t, 0);
      WordsAreWords(t[n..]);
      var ws := Words(s);
      assert ws == [t[..n]] + Words(t[n..]);
      forall k | 0 <= k < |ws| ensures ws[k] != [] && NoSpace(ws[k]) {
        if k > 0 {
          assert ws[k] == Words(t[n..])[k - 1];
        }
      }
    }
  }

  /** Splitting words joined by single spaces gives the words back. */
  lemma {:induction false} WordsOfJoin(ws: seq<string>)
    requires AreWords(ws)
    ensures Words(Join(ws, " ")) == ws
    decreases |ws|
  {
    if |ws| == 1 {
      WordsSingle(ws[0]);
    } else if |ws| > 1 {
      var tail := ws[1..];
      SplitFirst(ws);
      WordsOfJoin(tail);
      JoinStartsWithWord(tail);
      WordsOfJoinCons(ws[0], tail);
    }
  }

  /** A non-empty sequence is its first element followed by the rest. */
  lemma SplitFirst<T>(s: seq<T>)
    requires s != []
    ensures [s[0]] + s[1..] == s
  {
  }

  lemma WordsOfJoinCons(w: string, tail: seq<string>)
    requires w != [] && NoSpace(w) && tail != []
    requires Join(tail, " ") == [] || !IsSpace(Join(tail, " ")[0])
    requires Words(Join(tail, " ")) == tail
    ensures Words(Join([w] + tail, " ")) == [w] + tail
  {
    var ws := [w] + tail;
    assert ws[0] == w && ws[1..] == tail;
    JoinCons(ws, " ");
    WordsCons(w, Join(tail, " "));
  }

  lemma TokenEndOfWord(w: string, rest: string)
    requires NoSpace(w)
    requires rest == [] || IsSpace(rest[0])
    ensures TokenEnd(w + rest, 0) == |w|
  {
    var s := w + rest;
    var i := 0;
    while i < |w|
      invariant 0 <= i <= |w|
      invariant TokenEnd(s, 0) == TokenEnd(s, i)
    {
      assert s[i] == w[i];
      i := i + 1;
    }
  }

  lemma JoinCons(ws: seq<string>, sep: string)
    requires |ws| >= 2
    ensures Join(ws, sep) == ws[0] + sep + Join(ws[1..], sep)
  {
  }

  lemma JoinStartsWithWord(ws: seq<string>)
    requires AreWords(ws)
    ensures Join(ws, " ") == [] <==> ws == []
    ensures ws != [] ==> !IsSpace(Join(ws, " ")[0])
  {
    if |ws| >= 2 {
      assert Join(ws, " ")[0] == ws[0][0];
    }
  }

  predicate NoDups<T(==)>(s: seq<T>) {
    forall i, j :: 0 <= i < j < |s| ==> s[i] != s[j]
  }

  /** `list(set(s))`, with the set's elements listed in order of first occurrence. */
  function Dedup<T(==)>(s: seq<T>): (r: seq<T>)
    ensures |r| <= |s|
  {
    if s == [] then [] else
      var d := Dedup(s[..|s| - 1]);
      if s[|s| - 1] in d then d else d + [s[|s| - 1]]
  }

  /** Appending an element not yet present keeps a sequence free of duplicates. */
  lemma NoDupsTail<T>(s: seq<T>)
    requires NoDups(s) && s != []
    ensures NoDups(s[1..])
  {
    forall i, j | 0 <= i < j < |s| - 1 ensures s[1..][i] != s[1..][j] {
      assert s[i + 1] != s[j + 1];
    }
  }

  lemma NoDupsSnoc<T>(s: seq<T>, x: T)
    requires NoDups(s) && x !in s
    ensures NoDups(s + [x])
  {
    var r := s + [x];
    forall i, j | 0 <= i < j < |r| ensures r[i] != r[j] {
      if j == |s| {
        assert r[i] == s[i];
      }
    }
  }

  /** `list(set(s))` has no duplicates. */
  lemma {:induction false} DedupNoDups<T>(s: seq<T>)
    ensures NoDups(Dedup(s))
    decreases |s|
  {
    if s != [] {
      var init := s[..|s| - 1];
      DedupNoDups(init);
      if s[|s| - 1] !in Dedup(init) {
        NoDupsSnoc(Dedup(init), s[|s| - 1]);
      }
    }
  }

  /** A duplicate-free sequence holds each value at most once. */
  lemma {:induction false} NoDupsCount<T>(s: seq<T>, x: T)
    requires NoDups(s)
    ensures multiset(s)[x] <= 1
  {
    if s != [] {
      assert s == [s[0]] + s[1..];
      assert NoDups(s[1..]) by {
        forall i, j | 0 <= i < j < |s[1..]| ensures s[1..][i] != s[1..][j] {
          assert s[1..][i] == s[i + 1] && s[1..][j] == s[j + 1];
        }
      }
      NoDupsCount(s[1..], x);
      if x == s[0] {
        assert x !in s[1..] by {
          forall j | 0 <= j < |s[1..]| ensures s[1..][j] != x {
            assert s[1..][j] == s[j + 1];
          }
        }
      }
    }
  }

  /** A rearrangement of a duplicate-free sequence is duplicate-free. */
  lemma PermutationNoDups<T>(s: seq<T>, r: seq<T>)
    requires NoDups(s) && multiset(s) == multiset(r)
    ensures NoDups(r)
  {
    forall i, j | 0 <= i < j < |r| ensures r[i] != r[j] {
      if r[i] == r[j] {
        var x := r[i];
        assert r == r[..j] + r[j..];
        assert x in r[..j] && x in r[j..];
        assert multiset(r)[x] == multiset(r[..j])[x] + multiset(r[j..])[x];
        NoDupsCount(s, x);
        assert false;
      }
    }
  }

  /** A duplicate-free sequence has as many elements as its set. */
  lemma {:induction false} NoDupsCard<T>(s: seq<T>)
    requires NoDups(s)
    ensures |set x | x in s| == |s|
  {
    if s != [] {
      var init, last := s[..|s| - 1], s[|s| - 1];
      assert s == init + [last];
      assert NoDups(init) by {
        forall i, j | 0 <= i < j < |init| ensures init[i] != init[j] {
          assert init[i] == s[i] && init[j] == s[j];
        }
      }
      NoDupsCard(init);
      assert last !in init by {
        forall i | 0 <= i < |init| ensures init[i] != last {
          assert init[i] == s[i];
        }
      }
      assert (set x | x in s) == (set x | x in init) + {last};
    }
  }

  /** `list(set(s))` has the same members as `s`. */
  lemma {:induction false} DedupMember<T>(s: seq<T>, x: T)
    ensures x in Dedup(s) <==> x in s
    decreases |s|
  {
    if s != [] {
      var init := s[..|s| - 1];
      assert s == init + [s[|s| - 1]];
      DedupMember(init, x);
    }
  }

  /** Python's `max` of a non-empty list of numbers. */
  function MaxOf(s: seq<nat>): (m: nat)
    requires s != []
    ensures m in s
    ensures forall i :: 0 <= i < |s| ==> s[i] <= m
  {
    if |s| == 1 then s[0]
    else
      var rest := MaxOf(s[..|s| - 1]);
      if s[|s| - 1] > rest then s[|s| - 1] else rest
  }

  /** Python's `min` of a non-empty list of numbers. */
  function MinOf(s: seq<nat>): (m: nat)
    requires s != []
    ensures m in s
    ensures forall i :: 0 <= i < |s| ==> m <= s[i]
  {
    if |s| == 1 then s[0]
    else
      var rest := MinOf(s[..|s| - 1]);
      if s[|s| - 1] < rest then s[|s| - 1] else rest
  }

  /** The lists of `lists`, concatenated in order (`extend` in a loop). */
  function Concat<T>(lists: seq<seq<T>>): (r: seq<T>)
  {
    if lists == [] then [] else Concat(lists[..|lists| - 1]) + lists[|lists| - 1]
  }

  /** The concatenation is empty exactly when every list is. */
  lemma {:induction false} ConcatEmpty<T>(lists: seq<seq<T>>)
    ensures Concat(lists) == [] <==> forall k :: 0 <= k < |lists| ==> lists[k] == []
  {
    if lists != [] {
      var init, last := lists[..|lists| - 1], lists[|lists| - 1];
      ConcatEmpty(init);
      assert Concat(lists) == Concat(init) + last;
      assert forall k :: 0 <= k < |init| ==> init[k] == lists[k];
    }
  }

  /** Python's normalisation of one slice bound against a sequence of length `n`. */
  function SliceBound(i: int, n: nat): (k: nat)
    ensures k <= n
    ensures 0 <= i <= n ==> k == i
    ensures i > n ==> k == n
  {
    if i < 0 then (if n + i < 0 then 0 else n + i) else if i > n then n else i
  }

  /** Python's `s[a:b]`, including negative and out-of-range bounds. */
  function PySlice<T>(s: seq<T>, a: int, b: int): (r: seq<T>)
    ensures |r| <= |s|
    ensures r == [] || (SliceBound(a, |s|) < SliceBound(b, |s|) && r == s[SliceBound(a, |s|)..SliceBound(b, |s|)])
  {
    var i, j := SliceBound(a, |s|), SliceBound(b, |s|);
    if i < j then s[i..j] else []
  }

  /** Python's `s[:n]`. */
  function Take<T>(s: seq<T>, n: int): (r: seq<T>)
    ensures n >= 0 ==> |r| <= n && r == s[..if n < |s| then n else |s|]
    ensures n < 0 ==> r == s[..SliceBound(n, |s|)]
  {
    PySlice(s, 0, n)
  }

  function DigitChar(d: nat): (c: char)
    requires d < 10
    ensures IsDigit(c)
  {
    "0123456789"[d]
  }

  function DigitValue(c: char): (d: nat)
    requires IsDigit(c)
    ensures d < 10
  {
    c as int - '0' as int
  }

  /** The decimal rendering of a natural number, as `str(n)` prints it. */
  function NatToString(n: nat): (r: string)
    ensures r != []
    ensures forall i :: 0 <= i < |r| ==> IsDigit(r[i])
    decreases n
  {
    if n < 10 then [DigitChar(n)] else NatToString(n / 10) + [DigitChar(n % 10)]
  }

  /** `str(i)` for an integer. */
  function IntToString(i: int): string {
    if i < 0 then "-" + NatToString(-i) else NatToString(i)
  }

  /** `int(s)` for a string of decimal digits. */
  function ParseDigits(s: string): (n: nat)
    requires forall i :: 0 <= i < |s| ==> IsDigit(s[i])
    decreases |s|
  {
    if s == [] then 0 else 10 * ParseDigits(s[..|s| - 1]) + DigitValue(s[|s| - 1])
  }

  /** Reading back a printed number gives the number. */
  lemma {:induction false} ParseNatToString(n: nat)
    ensures ParseDigits(NatToString(n)) == n
    decreases n
  {
    if n >= 10 {
      var s := NatToString(n);
      assert s[..|s| - 1] == NatToString(n / 10);
      ParseNatToString(n / 10);
    }
  }

  /** `sub in s` for strings. */
  predicate Contains(s: string, sub: string) {
    exists i :: 0 <= i <= |s| && OccursAt(s, sub, i)
  }

  predicate OccursAt(s: string, sub: string, i: nat) {
    i + |sub| <= |s| && s[i..i + |sub|] == sub
  }

  predicate StartsWith(s: string, p: string) {
    |p| <= |s| && s[..|p|] == p
  }

  predicate EndsWith(s: string, p: string) {
    |p| <= |s| && s[|s| - |p|..] == p
  }

  /** `any(t in s for t in terms)`. */
  predicate ContainsAny(s: string, terms: seq<string>) {
    exists k :: 0 <= k < |terms| && Contains(s, terms[k])
  }

  /** The keys of a Python dict, modelled as an association list in insertion order. */
  function Keys<K(==), V>(m: seq<(K, V)>): (ks: seq<K>)
    ensures |ks| == |m|
    ensures forall i {:trigger ks[i]} :: 0 <= i < |m| ==> ks[i] == m[i].0
  {
    if m == [] then [] else [m[0].0] + Keys(m[1..])
  }

  /** `d.get(k)`: the value stored under the first entry with key `k`. */
  function Lookup<K(==), V>(m: seq<(K, V)>, k: K): (r: Option<V>)
    ensures r.None? <==> k !in Keys(m)
  {
    if m == [] then None else if m[0].0 == k then Some(m[0].1) else Lookup(m[1..], k)
  }

  /** `d.get(k, default)`. */
  function Get<K(==), V>(m: seq<(K, V)>, k: K, default: V): V {
    match Lookup(m, k)
    case Some(v) => v
    case None => default
  }

  /** `d[k] = v`: replaces the value of an existing key in place, or appends a new entry. */
  function Put<K(==), V>(m: seq<(K, V)>, k: K, v: V): (r: seq<(K, V)>)
    ensures k in Keys(m) ==> Keys(r) == Keys(m)
    ensures k !in Keys(m) ==> Keys(r) == Keys(m) + [k]
  {
    if m == [] then [(k, v)]
    else if m[0].0 == k then [(k, v)] + m[1..]
    else [m[0]] + Put(m[1..], k, v)
  }

  /** After `d[k] = v`, `d.get(k)` is `v` and every other key keeps its value. */
  lemma {:induction false} PutLookup<K, V>(m: seq<(K, V)>, k: K, v: V, j: K)
    ensures Lookup(Put(m, k, v), j) == if j == k then Some(v) else Lookup(m, j)
  {
    if m != [] && m[0].0 != k {
      PutLookup(m[1..], k, v, j);
    }
  }

  /** A new entry at the end of a dict is only found when no earlier entry has its key. */
  lemma {:induction false} LookupSnoc<K, V>(m: seq<(K, V)>, k: K, v: V, j: K)
    ensures Keys(m + [(k, v)]) == Keys(m) + [k]
    ensures Lookup(m + [(k, v)], j) == if j in Keys(m) then Lookup(m, j) else if j == k then Some(v) else None
  {
    assert Keys(m + [(k, v)]) == Keys(m) + [k];
    if m != [] {
      assert (m + [(k, v)])[1..] == m[1..] + [(k, v)];
      LookupSnoc(m[1..], k, v, j);
    }
  }

  /** `d[k] = v` for a new key appends the entry. */
  lemma {:induction false} PutNew<K, V>(m: seq<(K, V)>, k: K, v: V)
    requires k !in Keys(m)
    ensures Put(m, k, v) == m + [(k, v)]
  {
    if m != [] {
      assert k !in Keys(m[1..]);
      PutNew(m[1..], k, v);
    }
  }

  /** A second `d[k] = v` overrides the first. */
  lemma {:induction false} PutTwice<K, V>(m: seq<(K, V)>, k: K, v1: V, v2: V)
    ensures Put(Put(m, k, v1), k, v2) == Put(m, k, v2)
  {
    if m != [] && m[0].0 != k {
      PutTwice(m[1..], k, v1, v2);
    }
  }

  /** The last entry of a dict has a key no earlier entry has. */
  lemma DistinctKeysInit<K, V>(m: seq<(K, V)>)
    requires m != [] && DistinctKeys(m)
    ensures m[|m| - 1].0 !in Keys(m[..|m| - 1])
    ensures DistinctKeys(m[..|m| - 1])
  {
    var n := |m| - 1;
    var ks := Keys(m);
    assert Keys(m[..n]) == ks[..n];
    forall i | 0 <= i < n ensures ks[..n][i] != m[n].0 {
      assert ks[i] != ks[n];
    }
    forall i, j | 0 <= i < j < n ensures ks[..n][i] != ks[..n][j] {
      assert ks[i] != ks[j];
    }
  }

  /** A non-empty sequence is its front followed by its last element. */
  lemma SplitLast<T>(s: seq<T>)
    requires s != []
    ensures s[..|s| - 1] + [s[|s| - 1]] == s
  {
  }

  /** Looking up a dict whose last entry has a new key. */
  lemma GetSnoc<K, V>(m: seq<(K, V)>, j: K, d: V)
    requires m != [] && m[|m| - 1].0 !in Keys(m[..|m| - 1])
    ensures Get(m, j, d) == if j == m[|m| - 1].0 then m[|m| - 1].1 else Get(m[..|m| - 1], j, d)
    ensures j in Keys(m) <==> j in Keys(m[..|m| - 1]) || j == m[|m| - 1].0
  {
    var n := |m| - 1;
    var init, last := m[..n], m[n];
    SplitLast(m);
    LookupSnoc(init, last.0, last.1, j);
    assert Keys(m) == Keys(init) + [last.0];
    assert Lookup(m, j) == if j == last.0 then Some(last.1) else Lookup(init, j);
  }

  /** `d[k] = v` keeps every key and adds `k`. */
  lemma PutKeys<K, V>(m: seq<(K, V)>, k: K, v: V)
    ensures k in Keys(Put(m, k, v))
    ensures forall x :: x in Keys(m) ==> x in Keys(Put(m, k, v))
  {
  }

  /** Every entry after `d[k] = v` is the new one or was already there. */
  lemma {:induction false} PutEntries<K, V>(m: seq<(K, V)>, k: K, v: V, e: (K, V))
    ensures e in Put(m, k, v) ==> e == (k, v) || e in m
  {
    if m != [] && m[0].0 != k {
      PutEntries(m[1..], k, v, e);
    }
  }

  /** Keys of a dict are distinct. */
  predicate DistinctKeys<K(==), V>(m: seq<(K, V)>) {
    NoDups(Keys(m))
  }

  /** All values of an association list of lists, concatenated in key order. */
  function Flatten<K(==), V>(m: seq<(K, seq<V>)>): (r: seq<V>)
  {
    if m == [] then [] else Flatten(m[..|m| - 1]) + m[|m| - 1].1
  }

  lemma FlattenAppend<K, V>(m: seq<(K, seq<V>)>, n: seq<(K, seq<V>)>)
    ensures Flatten(m + n) == Flatten(m) + Flatten(n)
    decreases |n|
  {
    if n != [] {
      var n0, last := n[..|n| - 1], n[|n| - 1];
      assert m + n == (m + n0) + [last];
      assert (m + n)[..|m + n| - 1] == m + n0;
      FlattenAppend(m, n0);
      assert Flatten(n) == Flatten(n0) + last.1;
      calc {
        Flatten(m + n);
        Flatten(m + n0) + last.1;
        Flatten(m) + Flatten(n0) + last.1;
        Flatten(m) + (Flatten(n0) + last.1);
      }
    } else {
      assert m + n == m;
    }
  }

  /** `d[k].append(v)` on a `defaultdict(list)`. */
  function AppendToKey<K(==), V>(m: seq<(K, seq<V>)>, k: K, v: V): (r: seq<(K, seq<V>)>)
    ensures k in Keys(m) ==> Keys(r) == Keys(m)
    ensures k !in Keys(m) ==> Keys(r) == Keys(m) + [k]
  {
    if m == [] then [(k, [v])]
    else if m[0].0 == k then [(k, m[0].1 + [v])] + m[1..]
    else [m[0]] + AppendToKey(m[1..], k, v)
  }

  /** After `d[k].append(v)`, key `k` holds its old list plus `v`; other keys are untouched. */
  lemma {:induction false} AppendToKeyLookup<K, V>(m: seq<(K, seq<V>)>, k: K, v: V, j: K)
    ensures Lookup(AppendToKey(m, k, v), j) ==
      if j == k then Some(Get(m, k, []) + [v]) else Lookup(m, j)
  {
    if m != [] && m[0].0 != k {
      AppendToKeyLookup(m[1..], k, v, j);
      assert ([m[0]] + AppendToKey(m[1..], k, v))[1..] == AppendToKey(m[1..], k, v);
    } else if m != [] {
      assert ([(k, m[0].1 + [v])] + m[1..])[1..] == m[1..];
    } else {
      assert Get(m, k, []) + [v] == [v];
    }
  }

  /** Appending to a key adds exactly that one value to the dict's contents. */
  lemma {:induction false} AppendToKeyContents<K, V>(m: seq<(K, seq<V>)>, k: K, v: V)
    ensures multiset(Flatten(AppendToKey(m, k, v))) == multiset(Flatten(m)) + multiset{v}
  {
    if m != [] {
      assert [m[0]] + m[1..] == m;
      FlattenAppend([m[0]], m[1..]);
      if m[0].0 == k {
        FlattenAppend([(k, m[0].1 + [v])], m[1..]);
      } else {
        AppendToKeyContents(m[1..], k, v);
        FlattenAppend([m[0]], AppendToKey(m[1..], k, v));
      }
    }
  }

  /**
   * `part / whole * 100 if whole else 0`; a share of at most the whole lies in [0, 100].
   */
  function Percentage(part: nat, whole: nat): (p: real)
    ensures whole == 0 ==> p == 0.0
    ensures part <= whole ==> 0.0 <= p <= 100.0
    ensures 0 < whole == part ==> p == 100.0
  {
    if whole == 0 then 0.0
    else
      var q := part as real / whole as real;
      assert q * whole as real == part as real;
      assert part == whole ==> q == 1.0;
      assert 0.0 <= q && (part < whole ==> q < 1.0) by {
        DivMonotone(0.0, part as real, whole as real);
        if part < whole {
          DivBelowOne(part as real, whole as real);
        }
      }
      q * 100.0
  }

  /** Dividing by a positive number keeps order. */
  lemma DivMonotone(a: real, b: real, d: real)
    requires 0.0 < d && a <= b
    ensures a / d <= b / d
  {
    var qa, qb := a / d, b / d;
    assert qa * d == a && qb * d == b;
  }

  /** A share of less than the whole is a ratio in [0, 1). */
  lemma DivBelowOne(a: real, d: real)
    requires 0.0 <= a < d
    ensures 0.0 <= a / d < 1.0
  {
    DivMonotone(0.0, a, d);
    var q := a / d;
    assert q * d == a;
  }

  /** Python's `a < b` on strings: the first differing character decides, and a proper prefix comes first. */
  predicate StrLess(a: string, b: string) {
    if a == [] then b != []
    else if b == [] then false
    else if a[0] != b[0] then a[0] < b[0]
    else StrLess(a[1..], b[1..])
  }

  lemma {:induction false} StrLessAsymmetric(a: string, b: string)
    ensures StrLess(a, b) ==> !StrLess(b, a)
  {
    if a != [] && b != [] && a[0] == b[0] {
      StrLessAsymmetric(a[1..], b[1..]);
    }
  }

  /** `t` occurs in `s` as a subsequence (Python list filters keep order). */
  predicate IsSubsequence<T(==)>(t: seq<T>, s: seq<T>)
    decreases |s|
  {
    if t == [] then true
    else if s == [] then false
    else if t[|t| - 1] == s[|s| - 1] then IsSubsequence(t[..|t| - 1], s[..|s| - 1])
    else IsSubsequence(t, s[..|s| - 1])
  }

  /** A subsequence stays one when the sequence grows at the end. */
  lemma {:induction false} SubsequenceExtend<T>(t: seq<T>, s: seq<T>, x: T)
    requires IsSubsequence(t, s)
    ensures IsSubsequence(t, s + [x])
    decreases |s|, 1
  {
    var s' := s + [x];
    assert s'[..|s'| - 1] == s;
    if t != [] && t[|t| - 1] == x {
      SubsequenceDropLast(t, s);
    }
  }

  /** Dropping the last element of a subsequence leaves a subsequence. */
  lemma {:induction false} SubsequenceDropLast<T>(t: seq<T>, s: seq<T>)
    requires t != [] && IsSubsequence(t, s)
    ensures IsSubsequence(t[..|t| - 1], s)
    decreases |s|, 0
  {
    var init := s[..|s| - 1];
    assert s == init + [s[|s| - 1]];
    if t[|t| - 1] == s[|s| - 1] {
      SubsequenceExtend(t[..|t| - 1], init, s[|s| - 1]);
    } else {
      SubsequenceDropLast(t, init);
      SubsequenceExtend(t[..|t| - 1], init, s[|s| - 1]);
    }
  }

  /** Appending the same element to both sides keeps a subsequence. */
  lemma SubsequenceSnoc<T>(t: seq<T>, s: seq<T>, x: T)
    requires IsSubsequence(t, s)
    ensures IsSubsequence(t + [x], s + [x])
  {
    assert (t + [x])[..|t + [x]| - 1] == t;
    assert (s + [x])[..|s + [x]| - 1] == s;
  }

  /** `[x] if c else []`: what one conditional `append` contributes. */
  function When<T>(c: bool, x: T): seq<T> {
    if c then [x] else []
  }

  /** The elements of `xs` that satisfy `p`, in order (a list comprehension with a condition). */
  function Filter<T>(xs: seq<T>, p: T -> bool): (r: seq<T>)
    ensures |r| <= |xs|
  {
    if xs == [] then [] else
      var init := Filter(xs[..|xs| - 1], p);
      if p(xs[|xs| - 1]) then init + [xs[|xs| - 1]] else init
  }

  /** One more element of `xs` is kept exactly when it satisfies `p`. */
  lemma FilterStep<T>(xs: seq<T>, p: T -> bool, i: nat)
    requires i < |xs|
    ensures Filter(xs[..i + 1], p) == if p(xs[i]) then Filter(xs[..i], p) + [xs[i]] else Filter(xs[..i], p)
  {
    assert xs[..i + 1][..i] == xs[..i];
  }

  /** The kept elements are exactly the elements that satisfy `p`. */
  lemma {:induction false} FilterMember<T>(xs: seq<T>, p: T -> bool, x: T)
    ensures x in Filter(xs, p) <==> x in xs && p(x)
  {
    if xs != [] {
      var init := xs[..|xs| - 1];
      SplitLast(xs);
      FilterMember(init, p, x);
    }
  }

  /** Filtering keeps the order of the input. */
  lemma {:induction false} FilterSubsequence<T>(xs: seq<T>, p: T -> bool)
    ensures IsSubsequence(Filter(xs, p), xs)
  {
    if xs != [] {
      var init, last := xs[..|xs| - 1], xs[|xs| - 1];
      SplitLast(xs);
      FilterSubsequence(init, p);
      if p(last) {
        SubsequenceSnoc(Filter(init, p), init, last);
      } else {
        SubsequenceExtend(Filter(init, p), init, last);
      }
    }
  }

  /** Filtering a list free of duplicates gives one free of duplicates. */
  lemma {:induction false} FilterNoDups<T>(xs: seq<T>, p: T -> bool)
    requires NoDups(xs)
    ensures NoDups(Filter(xs, p))
  {
    if xs != [] {
      var init, last := xs[..|xs| - 1], xs[|xs| - 1];
      SplitLast(xs);
      assert NoDups(init);
      FilterNoDups(init, p);
      if p(last) {
        FilterMember(init, p, last);
        NoDupsSnoc(Filter(init, p), last);
      }
    }
  }

  /** Splitting a list by a test and by its negation shares out every element. */
  lemma {:induction false} FilterSplit<T>(xs: seq<T>, p: T -> bool, q: T -> bool)
    requires forall x :: q(x) == !p(x)
    ensures |Filter(xs, p)| + |Filter(xs, q)| == |xs|
  {
    if xs != [] {
      FilterSplit(xs[..|xs| - 1], p, q);
    }
  }

  /** Every element passes the test exactly when filtering drops nothing. */
  lemma {:induction false} FilterAll<T>(xs: seq<T>, p: T -> bool)
    ensures |Filter(xs, p)| == |xs| <==> forall i :: 0 <= i < |xs| ==> p(xs[i])
  {
    if xs != [] {
      var init := xs[..|xs| - 1];
      FilterAll(init, p);
      assert forall i :: 0 <= i < |init| ==> init[i] == xs[i];
    }
  }

  /** A share below the whole is below 100 per cent. */
  lemma PercentageBelow(part: nat, whole: nat)
    requires part < whole
    ensures Percentage(part, whole) < 100.0
  {
    DivBelowOne(part as real, whole as real);
  }

  /** A share of a positive whole is 100 per cent exactly when it is the whole, and 0 exactly when it is nothing. */
  lemma PercentageExtremes(part: nat, whole: nat)
    requires 0 < whole && part <= whole
    ensures Percentage(part, whole) == 100.0 <==> part == whole
    ensures Percentage(part, whole) == 0.0 <==> part == 0
  {
    if part < whole {
      PercentageBelow(part, whole);
    }
    if part > 0 {
      var q := part as real / whole as real;
      assert q * whole as real == part as real;
    }
  }

  /** Extending a prefix by one element. */
  lemma PrefixStep<T>(s: seq<T>, k: nat)
    requires k < |s|
    ensures s[..k + 1] == s[..k] + [s[k]]
  {
  }

  /** The share of a non-empty list that passes a test is 100 per cent exactly when all pass, 0 exactly when none does. */
  lemma FilterPercentage<T>(xs: seq<T>, p: T -> bool)
    requires xs != []
    ensures Percentage(|Filter(xs, p)|, |xs|) == 100.0 <==> forall i :: 0 <= i < |xs| ==> p(xs[i])
    ensures Percentage(|Filter(xs, p)|, |xs|) == 0.0 <==> Filter(xs, p) == []
  {
    var part := |Filter(xs, p)|;
    FilterAll(xs, p);
    if part < |xs| {
      PercentageBelow(part, |xs|);
    }
    if part > 0 {
      var q := part as real / |xs| as real;
      assert q * |xs| as real == part as real;
    }
  }

  /** The first element of `xs` that satisfies `p`. */
  function FirstWhere<T>(xs: seq<T>, p: T -> bool): (r: Option<T>)
    ensures r.Some? ==> r.value in xs && p(r.value)
  {
    if xs == [] then None
    else if p(xs[0]) then Some(xs[0])
    else FirstWhere(xs[1..], p)
  }

  /** `FirstWhere` finds nothing exactly when no element satisfies `p`. */
  lemma {:induction false} FirstWhereNone<T>(xs: seq<T>, p: T -> bool)
    ensures FirstWhere(xs, p).None? <==> forall m :: 0 <= m < |xs| ==> !p(xs[m])
  {
    if xs != [] {
      FirstWhereNone(xs[1..], p);
      assert forall m :: 1 <= m < |xs| ==> xs[m] == xs[1..][m - 1];
    }
  }

  /** When `FirstWhere` picks `xs[k]` of a duplicate-free `xs`, it satisfies `p` and no earlier element does. */
  lemma {:induction false} FirstWherePicked<T>(xs: seq<T>, p: T -> bool, k: nat)
    requires NoDups(xs) && k < |xs|
    requires FirstWhere(xs, p) == Some(xs[k])
    ensures p(xs[k]) && forall m :: 0 <= m < k ==> !p(xs[m])
  {
    if k > 0 {
      var tail := xs[1..];
      assert tail[k - 1] == xs[k];
      assert xs[0] != xs[k];
      NoDupsTail(xs);
      FirstWherePicked(tail, p, k - 1);
      assert forall m :: 1 <= m < k ==> xs[m] == tail[m - 1];
    }
  }

  /** When `xs[k]` satisfies `p` and no earlier element does, `FirstWhere` picks it. */
  lemma {:induction false} FirstWherePicks<T>(xs: seq<T>, p: T -> bool, k: nat)
    requires k < |xs|
    requires p(xs[k]) && forall m :: 0 <= m < k ==> !p(xs[m])
    ensures FirstWhere(xs, p) == Some(xs[k])
  {
    if k > 0 {
      var tail := xs[1..];
      assert tail[k - 1] == xs[k];
      assert forall m :: 0 <= m < k - 1 ==> tail[m] == xs[m + 1];
      FirstWherePicks(tail, p, k - 1);
    }
  }

  /** Membership in a word list, as a test. */
  function InWords(ws: seq<string>): string -> bool {
    w => w in ws
  }

  /** Absence from a word list, as a test. */
  function NotInWords(ws: seq<string>): string -> bool {
    w => w !in ws
  }

  /** `job_description or ""`: an absent job description reads as the empty one. */
  function JdText(jd: Option<string>): string {
    match jd
    case None => ""
    case Some(s) => s
  }

  /** `text.split('\n')`: the pieces between newlines, at least one. */
  function SplitLines(s: string): (r: seq<string>)
    ensures |r| >= 1
    ensures forall k :: 0 <= k < |r| ==> '\n' !in r[k]
    decreases |s|
  {
    if s == [] then [[]]
    else
      var rest := SplitLines(s[1..]);
      if s[0] == '\n' then [[]] + rest else [[s[0]] + rest[0]] + rest[1..]
  }

  /** Joining the lines back with newlines gives the text again. */
  lemma {:induction false} SplitLinesJoin(s: string)
    ensures Join(SplitLines(s), "\n") == s
    decreases |s|
  {
    if s != [] {
      var rest := SplitLines(s[1..]);
      SplitLinesJoin(s[1..]);
      var r := SplitLines(s);
      if s[0] == '\n' {
        JoinCons(r, "\n");
        assert r[1..] == rest;
      } else if |rest| >= 2 {
        JoinCons(r, "\n");
        JoinCons(rest, "\n");
        assert r[1..] == rest[1..];
      }
    }
  }

  /** `[f(x) for x in xs]`. */
  function MapAll<T, U>(xs: seq<T>, f: T -> U): (r: seq<U>)
    ensures |r| == |xs|
  {
    if xs == [] then [] else MapAll(xs[..|xs| - 1], f) + [f(xs[|xs| - 1])]
  }

  lemma {:induction false} MapAllIndex<T, U>(xs: seq<T>, f: T -> U, k: nat)
    requires k < |xs|
    ensures MapAll(xs, f)[k] == f(xs[k])
  {
    if k < |xs| - 1 {
      MapAllIndex(xs[..|xs| - 1], f, k);
    }
  }

  lemma MapAllSnoc<T, U>(xs: seq<T>, f: T -> U, x: T)
    ensures MapAll(xs + [x], f) == MapAll(xs, f) + [f(x)]
  {
    assert (xs + [x])[..|xs|] == xs;
  }

  /** One more element of a prefix maps to one more result. */
  lemma MapAllStep<T, U>(xs: seq<T>, f: T -> U, i: nat)
    requires i < |xs|
    ensures MapAll(xs[..i + 1], f) == MapAll(xs[..i], f) + [f(xs[i])]
  {
    assert xs[..i + 1] == xs[..i] + [xs[i]];
    MapAllSnoc(xs[..i], f, xs[i]);
  }

  /** `max(found, default=0)`: the largest number found, or 0. */
  function YearsOf(found: seq<nat>): (y: nat)
    ensures found == [] ==> y == 0
    ensures found != [] ==> y in found && forall k :: 0 <= k < |found| ==> found[k] <= y
  {
    if found == [] then 0 else MaxOf(found)
  }

}
