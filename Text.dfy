/**
 * The string operations every agent is built from: ASCII lower-casing
 * (Python's `str.lower` on ASCII text), substring containment (Python's
 * `in` on strings), ordered keyword scans, and `str.split` on one
 * separator character.
 */
module Text {

  type String = seq<char>

  // ---------------------------------------------------------------------------
  // Lower-casing
  // ---------------------------------------------------------------------------

  function LowerChar(c: char): (r: char)
    ensures 'A' <= c <= 'Z' ==> r as int == c as int + 32
    ensures !('A' <= c <= 'Z') ==> r == c
    ensures !('A' <= r <= 'Z')
  {
    if 'A' <= c <= 'Z' then (c as int + 32) as char else c
  }

  /** `s.lower()`, restricted to the ASCII letters. */
  function Lower(s: String): (r: String)
    ensures |r| == |s|
    ensures forall i :: 0 <= i < |s| ==> r[i] == LowerChar(s[i])
  {
    seq(|s|, i requires 0 <= i < |s| => LowerChar(s[i]))
  }

  predicate IsLower(s: String) {
    forall i :: 0 <= i < |s| ==> !('A' <= s[i] <= 'Z')
  }

  // ---------------------------------------------------------------------------
  // Substring containment
  // ---------------------------------------------------------------------------

  /** `pat in text`: some suffix of `text` starts with `pat`. */
  predicate Contains(text: String, pat: String)
    decreases |text|
  {
    pat <= text || (|text| > 0 && Contains(text[1..], pat))
  }

  /** `pat` occurs in `text` at index `i`. */
  ghost predicate OccursAt(text: String, pat: String, i: int) {
    0 <= i && i + |pat| <= |text| && text[i..i + |pat|] == pat
  }

  /** An occurrence at index `i` is found by the scan. */
  lemma {:induction false} ContainsAt(text: String, pat: String, i: int)
    requires OccursAt(text, pat, i)
    ensures Contains(text, pat)
    decreases i
  {
    if i > 0 {
      assert text[1..][i - 1..i - 1 + |pat|] == text[i..i + |pat|];
      ContainsAt(text[1..], pat, i - 1);
    }
  }

  /** Whatever the scan finds is an occurrence at some index. */
  lemma {:induction false} OccurrenceOf(text: String, pat: String) returns (i: nat)
    requires Contains(text, pat)
    ensures OccursAt(text, pat, i)
    decreases |text|
  {
    if pat <= text {
      i := 0;
    } else {
      var j := OccurrenceOf(text[1..], pat);
      assert text[1..][j..j + |pat|] == text[j + 1..j + 1 + |pat|];
      i := j + 1;
    }
  }

  /** The scan of `Contains` finds exactly the positions where `pat` occurs. */
  lemma ContainsIff(text: String, pat: String)
    ensures Contains(text, pat) <==> exists i :: OccursAt(text, pat, i)
  {
    if Contains(text, pat) {
      var i := OccurrenceOf(text, pat);
    }
    forall i | OccursAt(text, pat, i) ensures Contains(text, pat) {
      ContainsAt(text, pat, i);
    }
  }

  /** Containment is transitive: a text holding `a` holds everything `a` holds. */
  lemma ContainsTrans(text: String, a: String, b: String)
    requires Contains(text, a) && Contains(a, b)
    ensures Contains(text, b)
  {
    var i := OccurrenceOf(text, a);
    var j := OccurrenceOf(a, b);
    forall k | 0 <= k < |b| ensures text[i + j + k] == b[k] {
      assert text[i..i + |a|][j + k] == a[j + k];
    }
    assert text[i + j..i + j + |b|] == b;
    ContainsAt(text, b, i + j);
  }

  /** A piece of a concatenation is contained in it. */
  lemma ContainsInConcat(a: String, b: String, c: String, pat: String)
    requires Contains(b, pat)
    ensures Contains(a + b + c, pat)
  {
    var i := OccurrenceOf(b, pat);
    assert (a + b + c)[|a| + i..|a| + i + |pat|] == b[i..i + |pat|];
    ContainsAt(a + b + c, pat, |a| + i);
  }

  /** Case-insensitive containment of a lower-case pattern survives lower-casing the text. */
  lemma ContainsLower(text: String, pat: String)
    requires Contains(text, pat) && IsLower(pat)
    ensures Contains(Lower(text), pat)
  {
    var i := OccurrenceOf(text, pat);
    assert Lower(text)[i..i + |pat|] == pat;
    ContainsAt(Lower(text), pat, i);
  }

  /** A lower-case letter in the lowered text stood there in one case or the other. */
  lemma LowerCharFrom(t: String, c: char)
    requires 'a' <= c <= 'z'
    ensures c in Lower(t) ==> c in t || (c as int - 32) as char in t
  {
    if c in Lower(t) {
      var i :| 0 <= i < |t| && Lower(t)[i] == c;
      assert t[i] == c || t[i] == (c as int - 32) as char;
    }
  }

  /** A pair of lower-case letters in the lowered text stood there, unless one of them was upper-case. */
  lemma LowerPairFrom(t: String, x: char, y: char)
    requires 'a' <= x <= 'z' && 'a' <= y <= 'z'
    ensures HasPair(Lower(t), x, y) ==>
      HasPair(t, x, y) || (x as int - 32) as char in t || (y as int - 32) as char in t
  {
    if HasPair(Lower(t), x, y) {
      var i :| 0 <= i < |t| - 1 && Lower(t)[i] == x && Lower(t)[i + 1] == y;
      if t[i] == x && t[i + 1] == y {
        assert HasPair(t, x, y);
      } else if t[i] != x {
        assert t[i] == (x as int - 32) as char;
      } else {
        assert t[i + 1] == (y as int - 32) as char;
      }
    }
  }

  /** Every keyword lower-cased, in the same order. */
  function LowerAll(keys: seq<String>): (r: seq<String>)
    ensures |r| == |keys|
    ensures forall k :: 0 <= k < |keys| ==> r[k] == Lower(keys[k])
  {
    seq(|keys|, k requires 0 <= k < |keys| => Lower(keys[k]))
  }

  /** Characters `x` and `y` stand side by side somewhere in `s`. */
  ghost predicate HasPair(s: String, x: char, y: char) {
    exists i :: 0 <= i < |s| - 1 && s[i] == x && s[i + 1] == y
  }

  /** A pair in a concatenation lies in one part or straddles the joint. */
  lemma PairInConcat(a: String, b: String, x: char, y: char)
    requires HasPair(a + b, x, y)
    ensures HasPair(a, x, y) || HasPair(b, x, y) || (a != [] && b != [] && a[|a| - 1] == x && b[0] == y)
  {
    var i :| 0 <= i < |a + b| - 1 && (a + b)[i] == x && (a + b)[i + 1] == y;
    if i < |a| - 1 {
      assert a[i] == x && a[i + 1] == y;
    } else if i >= |a| {
      assert b[i - |a|] == x && b[i - |a| + 1] == y;
    }
  }

  /** A pair absent from each part and from each joint is absent from the concatenation. */
  lemma NoPairInConcat(a: String, b: String, x: char, y: char)
    requires !HasPair(a, x, y) && !HasPair(b, x, y)
    requires !(a != [] && b != [] && a[|a| - 1] == x && b[0] == y)
    ensures !HasPair(a + b, x, y)
  {
    if HasPair(a + b, x, y) {
      PairInConcat(a, b, x, y);
    }
  }

  lemma NoPairInConcat3(a: String, b: String, c: String, x: char, y: char)
    requires !HasPair(a, x, y) && !HasPair(b, x, y) && !HasPair(c, x, y)
    requires a != [] && b != [] && c != []
    requires !(a[|a| - 1] == x && b[0] == y) && !(b[|b| - 1] == x && c[0] == y)
    ensures !HasPair(a + b + c, x, y)
  {
    NoPairInConcat(a, b, x, y);
    NoPairInConcat(a + b, c, x, y);
  }

  lemma NoPairInConcat4(a: String, b: String, c: String, d: String, x: char, y: char)
    requires !HasPair(a, x, y) && !HasPair(b, x, y) && !HasPair(c, x, y) && !HasPair(d, x, y)
    requires a != [] && b != [] && c != [] && d != []
    requires !(a[|a| - 1] == x && b[0] == y) && !(b[|b| - 1] == x && c[0] == y) && !(c[|c| - 1] == x && d[0] == y)
    ensures !HasPair(a + b + c + d, x, y)
  {
    NoPairInConcat(a, b, x, y);
    NoPairInConcat(a + b, c, x, y);
    NoPairInConcat(a + b + c, d, x, y);
  }

  lemma NoPairInConcat5(a: String, b: String, c: String, d: String, e: String, x: char, y: char)
    requires !HasPair(a, x, y) && !HasPair(b, x, y) && !HasPair(c, x, y) && !HasPair(d, x, y) && !HasPair(e, x, y)
    requires a != [] && b != [] && c != [] && d != [] && e != []
    requires !(a[|a| - 1] == x && b[0] == y) && !(b[|b| - 1] == x && c[0] == y)
    requires !(c[|c| - 1] == x && d[0] == y) && !(d[|d| - 1] == x && e[0] == y)
    ensures !HasPair(a + b + c + d + e, x, y)
  {
    NoPairInConcat4(a, b, c, d, x, y);
    NoPairInConcat(a + b + c + d, e, x, y);
  }

  /** An occurrence of `pat` puts each two adjacent characters of `pat` side by side in `text`. */
  lemma PairOfOccurrence(text: String, pat: String, k: nat)
    requires k + 1 < |pat|
    ensures Contains(text, pat) ==> HasPair(text, pat[k], pat[k + 1])
  {
    if Contains(text, pat) {
      var i := OccurrenceOf(text, pat);
      assert text[i + k] == pat[k] && text[i + k + 1] == pat[k + 1];
    }
  }

  /** A pattern two of whose adjacent characters never stand side by side in `text` does not occur in it. */
  lemma NotContainsByPair(text: String, pat: String, k: nat)
    requires k + 1 < |pat|
    requires !HasPair(text, pat[k], pat[k + 1])
    ensures !Contains(text, pat)
  {
    PairOfOccurrence(text, pat, k);
  }

  /** A pattern holding a character absent from `text` does not occur in it. */
  lemma NotContainsByChar(text: String, pat: String, k: nat)
    requires k < |pat| && pat[k] !in text
    ensures !Contains(text, pat)
  {
    CharOfOccurrence(text, pat, k);
  }

  lemma CharOfOccurrence(text: String, pat: String, k: nat)
    requires k < |pat|
    ensures Contains(text, pat) ==> pat[k] in text
  {
    if Contains(text, pat) {
      var i := OccurrenceOf(text, pat);
      assert text[i + k] == pat[k];
    }
  }

  // ---------------------------------------------------------------------------
  // Ordered keyword scans
  // ---------------------------------------------------------------------------

  /** Some keyword of `keys` occurs in `text`. */
  ghost predicate SomeOccurs(text: String, keys: seq<String>) {
    exists k :: 0 <= k < |keys| && Contains(text, keys[k])
  }

  /** `any(word in text for word in keys)`, scanning `keys` in order. */
  function AnyContained(text: String, keys: seq<String>): (r: bool)
    ensures r <==> SomeOccurs(text, keys)
  {
    if keys == [] then false
    else if Contains(text, keys[0]) then true
    else
      var rest := AnyContained(text, keys[1..]);
      assert SomeOccurs(text, keys[1..]) ==> SomeOccurs(text, keys) by {
        if SomeOccurs(text, keys[1..]) {
          var k :| 0 <= k < |keys[1..]| && Contains(text, keys[1..][k]);
          assert Contains(text, keys[k + 1]);
        }
      }
      rest
  }

  /** Index of the first keyword of `keys` occurring in `text`, or `|keys|` if none. */
  function FirstContained(text: String, keys: seq<String>): (k: nat)
    ensures k <= |keys|
    ensures forall j :: 0 <= j < k ==> !Contains(text, keys[j])
    ensures k < |keys| ==> Contains(text, keys[k])
  {
    if keys == [] then 0
    else if Contains(text, keys[0]) then 0
    else 1 + FirstContained(text, keys[1..])
  }

  /**
   * Index of the first rule (label, keywords) of which some keyword occurs in
   * `text`, or `|rules|` if none: a first-match-wins rule table.
   */
  function FirstRule(text: String, rules: seq<(String, seq<String>)>): (k: nat)
    ensures k <= |rules|
    ensures forall j :: 0 <= j < k ==> !SomeOccurs(text, rules[j].1)
    ensures k < |rules| ==> SomeOccurs(text, rules[k].1)
  {
    if rules == [] then 0
    else if AnyContained(text, rules[0].1) then 0
    else 1 + FirstRule(text, rules[1..])
  }

  // ---------------------------------------------------------------------------
  // Splitting on one character
  // ---------------------------------------------------------------------------

  /** Number of occurrences of `c` in `s`. */
  function Count(s: String, c: char): (n: nat)
    ensures n <= |s|
  {
    if s == [] then 0 else (if s[0] == c then 1 else 0) + Count(s[1..], c)
  }

  lemma {:induction false} CountConcat(a: String, b: String, c: char)
    ensures Count(a + b, c) == Count(a, c) + Count(b, c)
  {
    if a != [] {
      assert (a + b)[1..] == a[1..] + b;
      CountConcat(a[1..], b, c);
    } else {
      assert a + b == b;
    }
  }

  lemma {:induction false} CountAbsent(s: String, c: char)
    requires c !in s
    ensures Count(s, c) == 0
  {
    if s != [] {
      assert s == [s[0]] + s[1..];
      CountAbsent(s[1..], c);
    }
  }

  /** A string whose only `c` is its last character holds exactly one `c`. */
  lemma CountLastOnly(s: String, c: char)
    requires s != [] && s[|s| - 1] == c && c !in s[..|s| - 1]
    ensures Count(s, c) == 1
  {
    assert s == s[..|s| - 1] + [c];
    CountConcat(s[..|s| - 1], [c], c);
    CountAbsent(s[..|s| - 1], c);
  }

  /** `s.split(sep)` for a one-character separator. */
  function Split(s: String, sep: char): (parts: seq<String>)
    ensures |parts| >= 1
  {
    if s == [] then [[]]
    else
      var rest := Split(s[1..], sep);
      if s[0] == sep then [[]] + rest
      else [[s[0]] + rest[0]] + rest[1..]
  }

  /** `sep.join(parts)`. */
  function Join(parts: seq<String>, sep: char): String
    requires |parts| >= 1
  {
    if |parts| == 1 then parts[0] else parts[0] + [sep] + Join(parts[1..], sep)
  }

  /** `split` yields one more piece than there are separators. */
  lemma {:induction false} SplitLength(s: String, sep: char)
    ensures |Split(s, sep)| == Count(s, sep) + 1
  {
    if s != [] {
      SplitLength(s[1..], sep);
    }
  }

  /** No piece of a `split` holds the separator. */
  lemma {:induction false} SplitPiecesFree(s: String, sep: char)
    ensures forall p :: p in Split(s, sep) ==> sep !in p
  {
    if s != [] {
      SplitPiecesFree(s[1..], sep);
      var rest := Split(s[1..], sep);
      if s[0] != sep {
        assert rest[0] in rest;
        forall p | p in Split(s, sep) ensures sep !in p {
          if p != [s[0]] + rest[0] {
            assert p in rest[1..];
          }
        }
      }
    }
  }

  /** Joining the pieces of a `split` with the separator gives back the string. */
  lemma {:induction false} JoinSplit(s: String, sep: char)
    ensures Join(Split(s, sep), sep) == s
  {
    if s != [] {
      JoinSplit(s[1..], sep);
      var rest := Split(s[1..], sep);
      if s[0] == sep {
        assert Split(s, sep)[1..] == rest;
      } else {
        var parts := Split(s, sep);
        assert parts[1..] == rest[1..];
        if |rest| > 1 {
          assert Join(rest, sep) == rest[0] + [sep] + Join(rest[1..], sep);
        }
      }
    }
  }

}
